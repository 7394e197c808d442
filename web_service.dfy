/** The command-line client of the REST web services
    (python/saliweb/web_service.py): how an advertised parameter is shown,
    the `-F` arguments handed to `curl`, and which command runs. Running
    `curl`, parsing its XML reply and printing are not modelled. */
module WebServices {
  import opened Base

  // ---------------------------------------------------------------------
  // _Parameter and _FileParameter
  // ---------------------------------------------------------------------

  /** A string argument (`_Parameter`) or a file upload (`_FileParameter`). */
  datatype Kind = StringArg | FileArg

  datatype Parameter = Parameter(kind: Kind, name: string, help: string, optional: bool)

  /** `_Parameter(name, help, optional)`: the parameter is optional exactly
      when the XML attribute is the string `'1'`. */
  function NewParameter(kind: Kind, name: string, help: string, optionalFlag: string): (p: Parameter)
    ensures p.kind == kind && p.name == name && p.help == help
    ensures p.optional <==> optionalFlag == "1"
  {
    Parameter(kind, name, help, optionalFlag == "1")
  }

  /** What follows the name and `=` on the command line. */
  function Placeholder(kind: Kind): string {
    match kind
    case StringArg => "ARG"
    case FileArg => "@FILENAME"
  }

  /** `_get_arg`: `name=ARG`, or `name=@FILENAME` for a file. */
  function Arg(p: Parameter): string {
    p.name + "=" + Placeholder(p.kind)
  }

  /** `get_full_arg`: the argument, in brackets when it is optional. */
  function FullArg(p: Parameter): string {
    if p.optional then "[" + Arg(p) + "]" else Arg(p)
  }

  predicate EndsWith(s: string, suffix: string) {
    |suffix| <= |s| && s[|s| - |suffix|..] == suffix
  }

  /** Reads a shown argument back: the brackets give the optional flag and
      the placeholder gives the kind. */
  function ParseFullArg(s: string): Option<(Kind, string, bool)> {
    var optional := |s| >= 2 && s[0] == '[' && s[|s| - 1] == ']';
    var a := if optional then s[1..|s| - 1] else s;
    if EndsWith(a, "=@FILENAME") then Some((FileArg, a[..|a| - 10], optional))
    else if EndsWith(a, "=ARG") then Some((StringArg, a[..|a| - 4], optional))
    else None
  }

  /** The shown argument determines the parameter's kind, name and
      whether it is optional. */
  lemma {:induction false} FullArgRoundTrip(p: Parameter)
    ensures ParseFullArg(FullArg(p)) == Some((p.kind, p.name, p.optional))
  {
    var a := Arg(p);
    var s := FullArg(p);
    if p.optional {
      assert s[1..|s| - 1] == a;
    } else {
      assert s[|s| - 1] != ']';
    }
    if p.kind == StringArg {
      assert !EndsWith(a, "=@FILENAME") by {
        if |a| >= 10 {
          assert a[|a| - 10..][9] == a[|a| - 1] == 'G';
        }
      }
      assert a[|a| - 4..] == "=ARG";
      assert a[..|a| - 4] == p.name;
    } else {
      assert a[|a| - 10..] == "=@FILENAME";
      assert a[..|a| - 10] == p.name;
    }
  }

  /** The shown arguments of the client's tests. */
  lemma FullArgExamples()
    ensures FullArg(NewParameter(StringArg, "foo", "bar", "0")) == "foo=ARG"
    ensures FullArg(NewParameter(StringArg, "foo", "bar", "1")) == "[foo=ARG]"
    ensures FullArg(NewParameter(FileArg, "foo", "bar", "1")) == "[foo=@FILENAME]"
  {
    assert Arg(Parameter(StringArg, "foo", "bar", false)) == "foo=ARG";
    assert "[" + "foo=ARG" + "]" == "[foo=ARG]";
    assert Arg(Parameter(FileArg, "foo", "bar", true)) == "foo=@FILENAME";
    assert "[" + "foo=@FILENAME" + "]" == "[foo=@FILENAME]";
  }

  /** The width of the name column in the help text. */
  const HelpColumn := 20

  /** `"%-20s" % s`: `s` padded with spaces on the right to 20 characters;
      a longer `s` is kept whole. */
  function LeftJustify(s: string, width: nat): string {
    if |s| >= width then s else s + seq(width - |s|, _ => ' ')
  }

  /** `get_help`: the name in a 20-column field, the help text, and
      ` [optional]` for an optional parameter. */
  function Help(p: Parameter): string {
    LeftJustify(p.name, HelpColumn) + p.help + (if p.optional then " [optional]" else "")
  }

  /** The help line holds the name, then spaces up to column 20 (or none
      after a longer name), then the help text, then ` [optional]` exactly
      for an optional parameter. */
  lemma HelpLayout(p: Parameter)
    ensures var h := Help(p);
            var w := if |p.name| >= HelpColumn then |p.name| else HelpColumn;
            |h| == w + |p.help| + (if p.optional then 11 else 0) &&
            h[..|p.name|] == p.name &&
            (forall i :: |p.name| <= i < w ==> h[i] == ' ') &&
            h[w..w + |p.help|] == p.help &&
            (p.optional ==> h[w + |p.help|..] == " [optional]") &&
            (!p.optional ==> |h| == w + |p.help|)
  {
    var h := Help(p);
    var pad := LeftJustify(p.name, HelpColumn);
    var w := |pad|;
    assert h == pad + p.help + (if p.optional then " [optional]" else "");
    assert h[..|p.name|] == pad[..|p.name|];
    assert h[w..w + |p.help|] == p.help;
  }

  /** The help lines of the client's tests. */
  lemma HelpExamples()
    ensures Help(NewParameter(StringArg, "foo", "bar", "0")) == "foo" + seq(17, _ => ' ') + "bar"
    ensures Help(NewParameter(StringArg, "foo", "bar", "1")) == "foo" + seq(17, _ => ' ') + "bar [optional]"
    ensures Help(NewParameter(FileArg, "foo", "bar", "1")) == "foo" + seq(17, _ => ' ') + "bar [optional]"
  {
    assert "foo" + seq(17, _ => ' ') + "bar [optional]" == ("foo" + seq(17, _ => ' ')) + "bar" + " [optional]";
  }

  // ---------------------------------------------------------------------
  // submit_job
  // ---------------------------------------------------------------------

  /** The `curl_args` loop of `submit_job`: each job argument preceded by
      `-F`, in the order given. */
  method CurlArgs(args: seq<string>) returns (curlArgs: seq<string>)
    ensures |curlArgs| == 2 * |args|
    ensures forall i :: 0 <= i < |args| ==> curlArgs[2 * i] == "-F" && curlArgs[2 * i + 1] == args[i]
  {
    curlArgs := [];
    var i := 0;
    while i < |args|
      invariant 0 <= i <= |args|
      invariant |curlArgs| == 2 * i
      invariant forall j :: 0 <= j < i ==> curlArgs[2 * j] == "-F" && curlArgs[2 * j + 1] == args[j]
    {
      curlArgs := curlArgs + ["-F"];
      curlArgs := curlArgs + [args[i]];
      i := i + 1;
    }
  }

  // ---------------------------------------------------------------------
  // WebService.main and the commands
  // ---------------------------------------------------------------------

  /** What the client does for a command line. */
  datatype Action =
    | ShortHelp          // prints the one-line help
    | ShowInfo(url: string)
    | SubmitJob(url: string, args: seq<string>)
    | Nothing

  /** `WebService.main` with `sys.argv`: no command prints the short help;
      `info` shows a service with exactly one argument; `submit` submits
      to its first argument the remaining ones; anything else does
      nothing. */
  function Dispatch(argv: seq<string>): Action {
    if |argv| <= 1 then ShortHelp
    else
      var args := argv[2..];
      if argv[1] == "info" then
        if |args| == 1 then ShowInfo(args[0]) else Nothing
      else if argv[1] == "submit" then
        if |args| >= 1 then SubmitJob(args[0], args[1..]) else Nothing
      else Nothing
  }

  /** Each action happens for exactly the command lines described. */
  lemma DispatchIff(argv: seq<string>)
    ensures Dispatch(argv) == ShortHelp <==> |argv| <= 1
    ensures Dispatch(argv).ShowInfo? <==> |argv| == 3 && argv[1] == "info"
    ensures Dispatch(argv).ShowInfo? ==> Dispatch(argv).url == argv[2]
    ensures Dispatch(argv).SubmitJob? <==> |argv| >= 3 && argv[1] == "submit"
    ensures Dispatch(argv).SubmitJob? ==> [Dispatch(argv).url] + Dispatch(argv).args == argv[2..]
    ensures |argv| >= 2 && argv[1] != "info" && argv[1] != "submit" ==> Dispatch(argv) == Nothing
  {
    if |argv| >= 3 && argv[1] == "submit" {
      assert [argv[2..][0]] + argv[2..][1..] == argv[2..];
    }
  }
}
