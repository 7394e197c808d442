/** The job object the administrative command-line tools act on, and the
    yes/no question they ask before acting on it
    (python/saliweb/backend/deljob.py and python/saliweb/backend/failjob.py
    ask it the same way). The job's own `delete()` and `admin_fail()` live
    in code that is not part of this model; here they only record that
    they were called. */
module AdminJobs {
  import opened Text

  /** A job as the tools see it: its name, and whether `delete()` or
      `admin_fail(email)` has been called on it (with the e-mail flag). */
  class Job {
    const name: string
    var deleted: bool
    var failedWithEmail: seq<bool>

    constructor (name: string)
      ensures this.name == name && !deleted && failedWithEmail == []
    {
      this.name := name;
      deleted := false;
      failedWithEmail := [];
    }

    /** `job.delete()`. */
    method Delete()
      modifies this
      ensures deleted && failedWithEmail == old(failedWithEmail)
    {
      deleted := true;
    }

    /** `job.admin_fail(email)`. */
    method AdminFail(email: bool)
      modifies this
      ensures failedWithEmail == old(failedWithEmail) + [email] && deleted == old(deleted)
    {
      failedWithEmail := failedWithEmail + [email];
    }
  }

  /** The answer to "Delete job NAME? " or "Fail job NAME? " counts as yes
      when the line read is not empty and its first character, upper-cased,
      is `Y`. */
  predicate Confirmed(reply: string) {
    |reply| >= 1 && UpperChar(reply[0]) == 'Y'
  }

  /** Exactly the lines that start with `y` or `Y` are a yes. */
  lemma ConfirmedIff(reply: string)
    ensures Confirmed(reply) <==> |reply| >= 1 && (reply[0] == 'y' || reply[0] == 'Y')
  {
    if |reply| >= 1 && UpperChar(reply[0]) == 'Y' && IsAsciiLower(reply[0]) {
      assert reply[0] as int == 'Y' as int + 32;
    }
  }

  /** The replies of the tools' tests. */
  lemma ConfirmedExamples()
    ensures !Confirmed("") && !Confirmed("n\n") && !Confirmed("x\n")
    ensures Confirmed("y\n") && Confirmed("Y\n") && Confirmed("yes\n")
  {
  }
}
