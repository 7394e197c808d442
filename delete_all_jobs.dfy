/** The tool that deletes every job of a web service
    (python/saliweb/backend/delete_all_jobs.py): it refuses while the
    backend daemon runs and otherwise deletes only after the user types
    exactly `YES`. Printing the warning and the deletion itself are not
    modelled; the line read from standard input is a parameter. */
module DeleteAllJobs {
  import opened Base
  import opened Text

  /** `StateFileError`, raised by `get_running_pid` when the daemon's state
      file cannot be read. */
  datatype StateFileError = StateFileError

  function RunningMessage(pid: int): string {
    "The backend is running (pid " + ShowInt(pid) + "). Please stop it first."
  }

  /** `check_not_running(web)`, with `pid` what `web.get_running_pid()`
      returns or raises: a recorded pid refuses, while no pid and an
      unreadable state file both let the tool go on. */
  function CheckNotRunning(pid: Result<Option<int>, StateFileError>): (r: Result<(), string>)
    ensures r.Err? <==> pid.Ok? && pid.value.Some?
    ensures r.Err? ==> r.error == RunningMessage(pid.value.value)
  {
    match pid
    case Err(_) => Ok(())
    case Ok(None) => Ok(())
    case Ok(Some(p)) => Err(RunningMessage(p))
  }

  /** `s.rstrip('\r\n')`: `s` less every carriage return and line feed at
      its end. */
  function StripLineEnd(s: string): string {
    if s != [] && (s[|s| - 1] == '\r' || s[|s| - 1] == '\n') then StripLineEnd(s[..|s| - 1]) else s
  }

  predicate LineEnds(s: string) {
    forall i :: 0 <= i < |s| ==> s[i] == '\r' || s[i] == '\n'
  }

  /** What `rstrip` removed is line ends, and what it kept does not end
      with one. */
  lemma {:induction false} StripLineEndSplits(s: string)
    ensures var t := StripLineEnd(s);
            t <= s && LineEnds(s[|t|..]) && (t == [] || (t[|t| - 1] != '\r' && t[|t| - 1] != '\n'))
  {
    if s != [] && (s[|s| - 1] == '\r' || s[|s| - 1] == '\n') {
      var u := s[..|s| - 1];
      StripLineEndSplits(u);
      var t := StripLineEnd(u);
      assert s[|t|..] == u[|t|..] + [s[|s| - 1]];
    }
  }

  /** Removing line ends from a text followed by line ends gives the text,
      when it does not itself end with one. */
  lemma {:induction false} StripLineEndOf(t: string, e: string)
    requires LineEnds(e)
    requires t == [] || (t[|t| - 1] != '\r' && t[|t| - 1] != '\n')
    ensures StripLineEnd(t + e) == t
  {
    if e == [] {
      assert t + e == t;
    } else {
      var e' := e[..|e| - 1];
      assert (t + e)[..|t + e| - 1] == t + e';
      StripLineEndOf(t, e');
    }
  }

  const Confirmation := "YES"
  const CanceledMessage := "Canceled."

  /** What `main` ends with. */
  datatype Outcome =
    | Refused(error: string)   // `check_not_running` raised
    | AllDeleted                // `web._delete_all_jobs()` was called
    | Canceled                  // "Canceled." was printed

  /** `main(webservice)` given the daemon's pid and the line the user typed. */
  function DeleteAll(pid: Result<Option<int>, StateFileError>, reply: string): Outcome {
    var check := CheckNotRunning(pid);
    if check.Err? then Refused(check.error)
    else if StripLineEnd(reply) == Confirmation then AllDeleted
    else Canceled
  }

  /** All jobs are deleted exactly when the daemon is not running and the
      line typed is `YES` followed only by carriage returns and line feeds;
      any other line cancels. */
  lemma DeleteAllIff(pid: Result<Option<int>, StateFileError>, reply: string)
    ensures DeleteAll(pid, reply) == AllDeleted <==>
            CheckNotRunning(pid).Ok? && Confirmation <= reply && LineEnds(reply[|Confirmation|..])
    ensures DeleteAll(pid, reply) == Canceled <==>
            CheckNotRunning(pid).Ok? && !(Confirmation <= reply && LineEnds(reply[|Confirmation|..]))
  {
    StripLineEndSplits(reply);
    if Confirmation <= reply && LineEnds(reply[3..]) {
      assert reply == Confirmation + reply[3..];
      StripLineEndOf(Confirmation, reply[3..]);
    }
  }

  /** The replies of the tool's tests: `YES` with its line feed deletes;
      lower case, `NO` and an empty line cancel. */
  lemma DeleteAllExamples()
    ensures DeleteAll(Ok(None), "YES\n") == AllDeleted
    ensures DeleteAll(Err(StateFileError), "YES\r\n") == AllDeleted
    ensures DeleteAll(Ok(None), "yes\n") == Canceled
    ensures DeleteAll(Ok(None), "NO\n") == Canceled
    ensures DeleteAll(Ok(None), "") == Canceled
    ensures DeleteAll(Ok(Some(42)), "YES\n").Refused?
  {
    assert "YES\n"[..3] == Confirmation;
    assert "YES\r\n"[..4] == "YES\r";
    assert "YES\r"[..3] == Confirmation;
    assert "yes\n"[..3] == "yes";
    assert "NO\n"[..2] == "NO";
  }
}
