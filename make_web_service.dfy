/** The generator of new web services (python/saliweb/make_web_service.py):
    the MySQL user names it derives from the short name, the fields it
    sets up, and the command-line checks. Writing the files, the version
    control commands and the `pwd` lookup of the install directory are not
    modelled. */
module MakeWebServices {
  import opened Base
  import opened Text

  /** The longest user name MySQL accepts. */
  const MaxUserName := 16

  // ---------------------------------------------------------------------
  // _make_database_name
  // ---------------------------------------------------------------------

  /** Where the trimming loop ends, started from prefix `p` and suffix `s`:
      unchanged if short enough; otherwise the suffix is cut from its end,
      down to 2 characters at most, and only then the prefix. */
  function Fit(p: string, s: string): string {
    if |p| + |s| <= MaxUserName then p + s
    else if |s| > 2 then
      if |p| <= MaxUserName - 2 then p + s[..MaxUserName - |p|]
      else p[..MaxUserName - 2] + s[..2]
    else p[..MaxUserName - |s|] + s
  }

  /** The suffix `_<typ>end` the name starts from. */
  function Suffix(typ: string): string {
    "_" + typ + "end"
  }

  /** The user name `_make_database_name(typ)` returns: it fits MySQL's
      limit, and a name that already fits is returned unchanged. */
  function DatabaseName(shortName: string, typ: string): (r: string)
    ensures |r| <= MaxUserName
    ensures |shortName| + |typ| + 4 <= MaxUserName ==> r == shortName + "_" + typ + "end"
  {
    Fit(shortName, Suffix(typ))
  }

  /** One pass of the loop either returns or shortens one of the two
      parts, and leaves the final result the same. */
  lemma FitStep(p: string, s: string)
    requires |p| + |s| > MaxUserName
    ensures |s| > 2 ==> Fit(p, s[..|s| - 1]) == Fit(p, s)
    ensures |s| <= 2 ==> |p| > 0 && Fit(p[..|p| - 1], s) == Fit(p, s)
  {
    if |s| > 2 {
      var t := s[..|s| - 1];
      if |p| + |t| > MaxUserName && |t| > 2 && |p| <= MaxUserName - 2 {
        assert t[..MaxUserName - |p|] == s[..MaxUserName - |p|];
      } else if |p| + |t| > MaxUserName && |t| > 2 {
        assert t[..2] == s[..2];
      } else if |p| + |t| > MaxUserName {
        assert t == s[..2];
      } else {
        assert t == s[..MaxUserName - |p|];
      }
    } else {
      var q := p[..|p| - 1];
      if |q| + |s| > MaxUserName {
        assert q[..MaxUserName - |s|] == p[..MaxUserName - |s|];
      } else {
        assert q == p[..MaxUserName - |s|];
      }
    }
  }

  /** `_make_database_name(typ)`: the `while True` loop that trims the
      suffix and then the prefix until `prefix + suffix` has at most 16
      characters. Each pass that does not return shortens one of them, so
      `|prefix| + |suffix|` bounds the number of passes. */
  method MakeDatabaseName(shortName: string, typ: string) returns (name: string)
    ensures name == DatabaseName(shortName, typ)
  {
    var suffix := Suffix(typ);
    var prefix := shortName;
    while true
      invariant |suffix| >= 2
      invariant Fit(prefix, suffix) == DatabaseName(shortName, typ)
      decreases |prefix| + |suffix|
    {
      name := prefix + suffix;
      if |name| <= MaxUserName {
        return;
      }
      FitStep(prefix, suffix);
      if |suffix| > 2 {
        suffix := suffix[..|suffix| - 1];
      } else {
        prefix := prefix[..|prefix| - 1];
      }
    }
  }

  /** The name is a start of the short name followed by a start of the
      suffix; the short name is cut only once the suffix is down to two
      characters (`_f`, `_b`), and then to the 14 characters that leaves. */
  lemma DatabaseNameShape(shortName: string, typ: string)
    ensures var r := DatabaseName(shortName, typ);
            exists kp, ks :: 0 <= kp <= |shortName| && 2 <= ks <= |Suffix(typ)| &&
                             r == shortName[..kp] + Suffix(typ)[..ks] &&
                             (kp < |shortName| ==> ks == 2 && kp == MaxUserName - 2)
  {
    var p, s := shortName, Suffix(typ);
    var r := DatabaseName(shortName, typ);
    if |p| + |s| <= MaxUserName {
      assert r == p[..|p|] + s[..|s|];
    } else if |p| <= MaxUserName - 2 {
      assert r == p[..|p|] + s[..MaxUserName - |p|];
    } else {
      assert r == p[..MaxUserName - 2] + s[..2];
    }
  }

  /** The front-end and back-end users of one service never share a name:
      both keep the same start of the short name, followed by `_f` and `_b`. */
  lemma FrontAndBackDiffer(shortName: string)
    ensures DatabaseName(shortName, "front") != DatabaseName(shortName, "back")
  {
    var f, b := DatabaseName(shortName, "front"), DatabaseName(shortName, "back");
    var m := if |shortName| <= MaxUserName - 2 then |shortName| else MaxUserName - 2;
    assert f[m + 1] == 'f';
    assert b[m + 1] == 'b';
  }

  /** The source's examples. */
  lemma DatabaseNameExamples()
    ensures DatabaseName("short", "veryverylongtype") == "short_veryverylo"
    ensures DatabaseName("veryverylongname", "back") == "veryverylongna_b"
  {
    assert Suffix("veryverylongtype")[..11] == "_veryverylo";
    assert "veryverylongname"[..14] == "veryverylongna";
    assert Suffix("back")[..2] == "_b";
  }

  // ---------------------------------------------------------------------
  // MakeWebService
  // ---------------------------------------------------------------------

  /** The version control the new service is set up with. */
  datatype SourceControl = Git(shortName: string, topdir: string) | Svn(shortName: string, topdir: string)

  /** The generator object with the fields `__init__` sets. */
  class MakeWebService {
    var shortName: string
    var topdir: string
    var user: string
    var db: string
    var sourceControl: SourceControl
    var serviceName: string
    var dbFrontendUser: string
    var dbBackendUser: string

    /** `MakeWebService(short_name, service_name, git)`: the directory, the
        system user and the database are all named after the short name,
        and the two database users are derived from it. */
    constructor (shortName: string, serviceName: string, git: bool)
      ensures this.shortName == shortName && this.serviceName == serviceName
      ensures topdir == shortName && user == shortName && db == shortName
      ensures sourceControl == if git then Git(shortName, shortName) else Svn(shortName, shortName)
      ensures dbFrontendUser == DatabaseName(shortName, "front")
      ensures dbBackendUser == DatabaseName(shortName, "back")
    {
      this.shortName := shortName;
      topdir := shortName;
      user := shortName;
      db := shortName;
      sourceControl := if git then Git(shortName, shortName) else Svn(shortName, shortName);
      this.serviceName := serviceName;
      dbFrontendUser := DatabaseName(shortName, "front");
      dbBackendUser := DatabaseName(shortName, "back");
    }
  }

  /** The two database users of a new service are distinct and fit MySQL. */
  method NewServiceUsers(shortName: string, serviceName: string, git: bool)
    returns (front: string, back: string)
    ensures front != back
    ensures |front| <= MaxUserName && |back| <= MaxUserName
  {
    var m := new MakeWebService(shortName, serviceName, git);
    front, back := m.dbFrontendUser, m.dbBackendUser;
    FrontAndBackDiffer(shortName);
  }

  // ---------------------------------------------------------------------
  // get_options
  // ---------------------------------------------------------------------

  const WrongArgCount := "Wrong number of arguments given"
  const NeedOneVcs := "Please specify one of --git or --svn"
  const BadShortName := "SHORT_NAME must be all lowercase and contain no spaces"

  /** The checks of `get_options` on the parsed flags and positional
      arguments, in the source's order; a failure is the message
      `parser.error` exits with. */
  function CheckOptions(svn: bool, git: bool, args: seq<string>): Result<(seq<string>, bool), string> {
    if |args| != 2 then Err(WrongArgCount)
    else if !(svn != git) then Err(NeedOneVcs)
    else if ' ' in args[0] || Lower(args[0]) != args[0] then Err(BadShortName)
    else Ok((args, git))
  }

  /** The options are accepted exactly when there are two arguments,
      exactly one of `--svn` and `--git`, and a short name with no space
      and no upper-case letter; the first failing check names the error. */
  lemma CheckOptionsIff(svn: bool, git: bool, args: seq<string>)
    ensures CheckOptions(svn, git, args).Ok? <==>
            |args| == 2 && svn != git && ' ' !in args[0] &&
            forall i :: 0 <= i < |args[0]| ==> !IsAsciiUpper(args[0][i])
    ensures CheckOptions(svn, git, args).Ok? ==> CheckOptions(svn, git, args).value == (args, git)
    ensures |args| != 2 ==> CheckOptions(svn, git, args) == Err(WrongArgCount)
    ensures |args| == 2 && svn == git ==> CheckOptions(svn, git, args) == Err(NeedOneVcs)
    ensures |args| == 2 && svn != git &&
            (' ' in args[0] || exists i :: 0 <= i < |args[0]| && IsAsciiUpper(args[0][i])) ==>
            CheckOptions(svn, git, args) == Err(BadShortName)
  {
    if |args| == 2 {
      LowerChangesIffUpper(args[0]);
    }
  }
}
