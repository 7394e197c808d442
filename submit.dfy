/** Job submission in the web frontend (python/saliweb/frontend/submit.py):
    cleaning a user-supplied job name, the candidate names tried in turn,
    the choice of the first candidate whose directory can be claimed, and
    the `IncomingJob` object with its results URL.

    The random suffixes, the random password, the filesystem and database
    probes and Flask's `url_for` are parameters: `randoms` holds the 50
    values `random.randint(0, 100000)` returns, `pick` the random choices of
    password characters, `probe` what the filesystem and the database
    answer about a name, and `urlFor` the URL Flask builds. */
module Submit {
  import opened Base
  import opened Text

  // ---------------------------------------------------------------------
  // _sanitize_job_name
  // ---------------------------------------------------------------------

  /** The characters `[a-zA-Z0-9_-]` a job name may keep. */
  predicate IsJobNameChar(c: char) {
    IsAlnum(c) || c == '_' || c == '-'
  }

  /** `re.sub('[^a-zA-Z0-9_-]', '', s)`: drops every other character. */
  function Filter(s: string): (r: string)
    ensures |r| <= |s|
    ensures forall i :: 0 <= i < |r| ==> IsJobNameChar(r[i])
  {
    if s == [] then []
    else (if IsJobNameChar(s[0]) then [s[0]] else []) + Filter(s[1..])
  }

  /** The maximum length of a sanitised name. */
  const MaxJobName := 30

  /** `_sanitize_job_name(job_name)`: a missing or empty name becomes
      `job`; then the disallowed characters are removed and the first 30
      characters kept. */
  function Sanitize(given: Option<string>): (r: string)
    ensures |r| <= MaxJobName
    ensures forall i :: 0 <= i < |r| ==> IsJobNameChar(r[i])
  {
    var name := if given.None? || given.value == "" then "job" else given.value;
    var f := Filter(name);
    if |f| <= MaxJobName then f
    else
      assert forall i :: 0 <= i < MaxJobName ==> f[..MaxJobName][i] == f[i];
      f[..MaxJobName]
  }

  /** Filtering a concatenation filters each part: the kept characters
      stay in their original order. */
  lemma {:induction false} FilterAppend(a: string, b: string)
    ensures Filter(a + b) == Filter(a) + Filter(b)
  {
    if a == [] {
      assert a + b == b;
    } else {
      var head := if IsJobNameChar(a[0]) then [a[0]] else [];
      assert (a + b)[0] == a[0];
      assert (a + b)[1..] == a[1..] + b;
      FilterAppend(a[1..], b);
      calc {
        Filter(a + b);
        head + Filter(a[1..] + b);
        head + (Filter(a[1..]) + Filter(b));
        (head + Filter(a[1..])) + Filter(b);
        Filter(a) + Filter(b);
      }
    }
  }

  /** Filtering leaves a string unchanged exactly when every character of
      it is allowed. */
  lemma {:induction false} FilterIdentity(s: string)
    ensures Filter(s) == s <==> forall i :: 0 <= i < |s| ==> IsJobNameChar(s[i])
  {
    if s != [] && forall i :: 0 <= i < |s| ==> IsJobNameChar(s[i]) {
      assert forall i :: 0 <= i < |s[1..]| ==> IsJobNameChar(s[1..][i]);
      FilterIdentity(s[1..]);
    }
  }

  /** Filtering gives the empty string exactly when no character is
      allowed. */
  lemma {:induction false} FilterEmpty(s: string)
    ensures Filter(s) == [] <==> forall i :: 0 <= i < |s| ==> !IsJobNameChar(s[i])
  {
    if s != [] {
      FilterEmpty(s[1..]);
      if forall i :: 0 <= i < |s[1..]| ==> !IsJobNameChar(s[1..][i]) {
        if !IsJobNameChar(s[0]) {
          forall i | 0 <= i < |s| ensures !IsJobNameChar(s[i]) {
            if i > 0 {
              assert s[i] == s[1..][i - 1];
            }
          }
        }
      } else {
        var i :| 0 <= i < |s[1..]| && IsJobNameChar(s[1..][i]);
        assert IsJobNameChar(s[i + 1]);
      }
    }
  }

  /** No name and the empty name both become `job`. */
  lemma SanitizeDefault()
    ensures Sanitize(None) == "job" && Sanitize(Some("")) == "job"
  {
    FilterIdentity("job");
  }

  /** A non-empty name is filtered and then cut to its first 30 characters. */
  lemma SanitizeIsPrefixOfFilter(s: string)
    requires s != ""
    ensures Sanitize(Some(s)) <= Filter(s)
    ensures |Sanitize(Some(s))| == if |Filter(s)| < MaxJobName then |Filter(s)| else MaxJobName
  {
  }

  /** The default is applied before filtering: a non-empty name made only
      of disallowed characters gives the empty name, not `job`. */
  lemma SanitizeAllDisallowed(s: string)
    requires s != "" && forall i :: 0 <= i < |s| ==> !IsJobNameChar(s[i])
    ensures Sanitize(Some(s)) == ""
  {
    FilterEmpty(s);
  }

  /** Sanitising a sanitised name changes it no more, unless it came out
      empty (which a second pass turns into `job`). */
  lemma SanitizeIdempotent(given: Option<string>)
    ensures Sanitize(given) != "" ==> Sanitize(Some(Sanitize(given))) == Sanitize(given)
    ensures Sanitize(given) == "" ==> Sanitize(Some(Sanitize(given))) == "job"
  {
    var r := Sanitize(given);
    FilterIdentity(r);
    SanitizeDefault();
  }

  /** A name made only of allowed characters is kept up to its first 30
      characters (the source's examples: `ABCabc123_-X` keeps all twelve,
      a 42-character name is cut to 30). */
  lemma SanitizeAllowedName(s: string)
    requires s != "" && forall i :: 0 <= i < |s| ==> IsJobNameChar(s[i])
    ensures Sanitize(Some(s)) == if |s| <= MaxJobName then s else s[..MaxJobName]
  {
    FilterIdentity(s);
  }

  // ---------------------------------------------------------------------
  // _get_trial_job_names
  // ---------------------------------------------------------------------

  /** The number of suffixed candidates after the plain name. */
  const Trials := 50

  /** `"%s_%d.%d" % (name, r, trial)`. */
  function TrialName(name: string, r: nat, trial: nat): string {
    name + "_" + Show(r) + "." + Show(trial)
  }

  /** Everything `_get_trial_job_names` yields, in order. */
  function TrialJobNames(given: Option<string>, randoms: seq<nat>): (names: seq<string>)
    requires |randoms| == Trials
    ensures |names| == Trials + 1
  {
    [Sanitize(given)] + seq(Trials, i requires 0 <= i < Trials => TrialName(Sanitize(given), randoms[i], i))
  }

  /** The generator's loop: the sanitised name, then one suffixed name per
      trial, each with the trial number after the dot. */
  method GetTrialJobNames(given: Option<string>, randoms: seq<nat>) returns (names: seq<string>)
    requires |randoms| == Trials
    ensures names == TrialJobNames(given, randoms)
    ensures names[0] == Sanitize(given)
    ensures forall i :: 0 <= i < Trials ==> names[i + 1] == TrialName(names[0], randoms[i], i)
  {
    var name := Sanitize(given);
    names := [name];
    var trial := 0;
    while trial < Trials
      invariant 0 <= trial <= Trials
      invariant |names| == trial + 1 && names[0] == name
      invariant forall i :: 0 <= i < trial ==> names[i + 1] == TrialName(name, randoms[i], i)
    {
      names := names + [TrialName(name, randoms[trial], trial)];
      trial := trial + 1;
    }
  }

  /** Two digit strings joined by a dot determine both parts. */
  lemma DottedInjective(a: string, b: string, c: string, d: string)
    requires AllDigits(a) && AllDigits(c)
    requires a + "." + b == c + "." + d
    ensures a == c && b == d
  {
    var s := a + "." + b;
    assert '.' !in a && '.' !in c;
    BeforeDotOf(a, b);
    BeforeDotOf(c, d);
    assert a == s[..|a|] == c;
    assert b == s[|a| + 1..] == d;
  }

  /** The candidates are pairwise distinct whatever the random numbers:
      the plain name has no dot, and the suffixed ones differ in the trial
      number after the dot. */
  lemma TrialJobNamesDistinct(given: Option<string>, randoms: seq<nat>, i: nat, j: nat)
    requires |randoms| == Trials && i < j <= Trials
    ensures TrialJobNames(given, randoms)[i] != TrialJobNames(given, randoms)[j]
  {
    var names := TrialJobNames(given, randoms);
    var name := Sanitize(given);
    var p := name + "_";
    var tj := Show(randoms[j - 1]) + "." + Show(j - 1);
    assert names[j] == p + tj;
    if i == 0 {
      var k := |p| + |Show(randoms[j - 1])|;
      assert names[j][k] == '.';
    } else {
      var ti := Show(randoms[i - 1]) + "." + Show(i - 1);
      assert names[i] == p + ti;
      if names[i] == names[j] {
        assert ti == names[i][|p|..] == names[j][|p|..] == tj;
        DottedInjective(Show(randoms[i - 1]), Show(i - 1), Show(randoms[j - 1]), Show(j - 1));
        ShowInjective(i - 1, j - 1);
      }
    }
  }

  /** No candidate contains a `/`, so each job directory is a direct child
      of the incoming directory. */
  lemma TrialJobNamesHaveNoSlash(given: Option<string>, randoms: seq<nat>, k: nat)
    requires |randoms| == Trials && k <= Trials
    ensures '/' !in TrialJobNames(given, randoms)[k]
    ensures !IsAbsolute(TrialJobNames(given, randoms)[k])
  {
    var names := TrialJobNames(given, randoms);
    var name := Sanitize(given);
    if k > 0 {
      var a, b := Show(randoms[k - 1]), Show(k - 1);
      assert names[k] == name + "_" + a + "." + b;
      forall i | 0 <= i < |names[k]| ensures names[k][i] != '/' {
        if i < |name| {
          assert names[k][i] == name[i];
        } else if |name| + 1 <= i < |name| + 1 + |a| {
          assert names[k][i] == a[i - |name| - 1];
        } else if |name| + 1 + |a| + 1 <= i {
          assert names[k][i] == b[i - |name| - |a| - 2];
        }
      }
    }
  }

  // ---------------------------------------------------------------------
  // _try_job_name and _get_job_name_directory
  // ---------------------------------------------------------------------

  /** What the filesystem and the database say about a candidate name:
      whether its directory exists, whether the database has the name
      before the directory is made, and whether it has it just after. */
  datatype Probe = Probe(dirExists: bool, inDbBefore: bool, inDbAfterMkdir: bool)

  /** `_try_job_name`: the job directory when the directory does not exist
      and the name is in the database neither before nor after the
      directory is created, and `None` otherwise. */
  function TryJobName(jobName: string, incoming: string, p: Probe): (r: Option<string>)
    ensures r.Some? <==> !p.dirExists && !p.inDbBefore && !p.inDbAfterMkdir
    ensures r.Some? ==> r.value == PathJoin(incoming, jobName)
  {
    var jobDir := PathJoin(incoming, jobName);
    if !p.dirExists && !p.inDbBefore then
      if !p.inDbAfterMkdir then Some(jobDir) else None
    else None
  }

  /** The mock cases of the source's tests: an existing directory, a name
      already in the database, a name that appears in the database after
      `mkdir`, and a new name. */
  lemma TryJobNameCases(incoming: string)
    ensures TryJobName("existing-dir", incoming, Probe(true, false, false)) == None
    ensures TryJobName("existing-job", incoming, Probe(false, true, true)) == None
    ensures TryJobName("justmade-job", incoming, Probe(false, false, true)) == None
    ensures TryJobName("new-job", incoming, Probe(false, false, false)) ==
            Some(PathJoin(incoming, "new-job"))
  {
  }

  const NoUniqueName := "Could not determine a unique job name"

  /** `_get_job_name_directory`: the first candidate whose directory can be
      claimed, with that directory; `ValueError` when none can. */
  method GetJobNameDirectory(given: Option<string>, randoms: seq<nat>, incoming: string,
                             probe: string -> Probe)
    returns (r: Result<(string, string), string>)
    requires |randoms| == Trials
    ensures var names := TrialJobNames(given, randoms);
            r.Err? <==> forall k :: 0 <= k < |names| ==> TryJobName(names[k], incoming, probe(names[k])).None?
    ensures r.Err? ==> r.error == NoUniqueName
    ensures var names := TrialJobNames(given, randoms);
            r.Ok? ==> exists k :: 0 <= k < |names| && names[k] == r.value.0 &&
                                  TryJobName(names[k], incoming, probe(names[k])) == Some(r.value.1) &&
                                  forall j :: 0 <= j < k ==> TryJobName(names[j], incoming, probe(names[j])).None?
  {
    var names := GetTrialJobNames(given, randoms);
    var k := 0;
    while k < |names|
      invariant 0 <= k <= |names|
      invariant forall j :: 0 <= j < k ==> TryJobName(names[j], incoming, probe(names[j])).None?
    {
      var jobDir := TryJobName(names[k], incoming, probe(names[k]));
      if jobDir.Some? {
        r := Ok((names[k], jobDir.value));
        assert names[k] == r.value.0 && TryJobName(names[k], incoming, probe(names[k])) == Some(r.value.1);
        return;
      }
      k := k + 1;
    }
    r := Err(NoUniqueName);
  }

  // ---------------------------------------------------------------------
  // IncomingJob
  // ---------------------------------------------------------------------

  /** The length of the password in a results URL. */
  const ResultsPasswordLength := 10

  const NotSubmitted := "Cannot get results URL before job is submitted"

  /** A new job being submitted: its unique name, its directory, and the
      results URL and password that `submit` fills in. */
  class IncomingJob {
    var name: string
    var directory: string
    var url: Option<string>
    var passwd: Option<string>

    constructor (name: string, directory: string)
      ensures this.name == name && this.directory == directory
      ensures url == None && passwd == None
    {
      this.name := name;
      this.directory := directory;
      url := None;
      passwd := None;
    }

    /** `IncomingJob(given_name)`: claims a name and a directory, or raises
        the `ValueError` of `_get_job_name_directory`. */
    static method Create(given: Option<string>, randoms: seq<nat>, incoming: string,
                         probe: string -> Probe)
      returns (r: Result<IncomingJob, string>)
      requires |randoms| == Trials
      ensures r.Ok? ==> fresh(r.value) && r.value.url == None && r.value.passwd == None &&
                        r.value.name in TrialJobNames(given, randoms) &&
                        Some(r.value.directory) == TryJobName(r.value.name, incoming, probe(r.value.name))
      ensures var names := TrialJobNames(given, randoms);
              r.Err? <==> forall k :: 0 <= k < |names| ==> TryJobName(names[k], incoming, probe(names[k])).None?
      ensures var names := TrialJobNames(given, randoms);
              r.Ok? ==> exists k :: 0 <= k < |names| && names[k] == r.value.name &&
                                    TryJobName(names[k], incoming, probe(names[k])) == Some(r.value.directory) &&
                                    forall j :: 0 <= j < k ==> TryJobName(names[j], incoming, probe(names[j])).None?
      ensures r.Err? ==> r.error == NoUniqueName
    {
      var nd := GetJobNameDirectory(given, randoms, incoming, probe);
      if nd.Err? {
        return Err(nd.error);
      }
      var job := new IncomingJob(nd.value.0, nd.value.1);
      r := Ok(job);
    }

    /** `get_path(fname)`: the file's path inside the job directory (an
        absolute `fname` is returned as it is, as `os.path.join` does). */
    function GetPath(fname: string): (p: string)
      reads this
      ensures !IsAbsolute(fname) ==> directory <= p
      ensures IsAbsolute(fname) ==> p == fname
      ensures |fname| <= |p| && p[|p| - |fname|..] == fname
    {
      PathJoinShape(directory, fname);
      PathJoin(directory, fname)
    }

    /** `results_url`: the URL once `submit` has set a non-empty one, and
        `ValueError` before. */
    function ResultsUrl(): (r: Result<string, string>)
      reads this
      ensures r.Ok? <==> url.Some? && url.value != ""
      ensures r.Ok? ==> r.value == url.value
      ensures r.Err? ==> r.error == NotSubmitted
    {
      if url.Some? && url.value != "" then Ok(url.value) else Err(NotSubmitted)
    }

    /** `submit()`: draws a 10-character password and stores it with the
        results URL built from the job name and that password. The database
        insert and the notice to the backend are not modelled. */
    method Submit(urlFor: (string, string) -> string, pick: nat -> nat)
      modifies this
      ensures name == old(name) && directory == old(directory)
      ensures passwd == Some(RandomAlnum(ResultsPasswordLength, pick))
      ensures url == Some(urlFor(name, passwd.value))
    {
      var pw := RandomAlnum(ResultsPasswordLength, pick);
      passwd := Some(pw);
      url := Some(urlFor(name, pw));
    }
  }

  /** A job's results URL is refused before `submit` and, once `submit`
      has run, is the URL built from the job's name and new password. */
  method ResultsUrlLifecycle(name: string, directory: string,
                             urlFor: (string, string) -> string, pick: nat -> nat)
    returns (before: Result<string, string>, after: Result<string, string>)
    ensures before == Err(NotSubmitted)
    ensures var u := urlFor(name, RandomAlnum(ResultsPasswordLength, pick));
            after == if u == "" then Err(NotSubmitted) else Ok(u)
  {
    var job := new IncomingJob(name, directory);
    before := job.ResultsUrl();
    job.Submit(urlFor, pick);
    after := job.ResultsUrl();
  }
}
