/** The pure rules inside the SCons build support of a web service
    (python/saliweb/build/__init__.py): the build map and its default, the
    service module name, the install directory layout, the `sudo` prefix
    of the printed commands, the MySQL user name check, where each
    `Install*` method puts its files, and the `"##CONFIG##"` substitution.
    The SCons environment is modelled by its string entries, as a map; the
    SCons nodes, file system checks and MySQL queries are not modelled. */
module Build {
  import opened Base
  import opened Text
  import MakeWebServices

  predicate EndsWith(s: string, suffix: string) {
    |suffix| <= |s| && s[|s| - |suffix|..] == suffix
  }

  /** Python's truth value of an optional string: `None` and `''` are
      false. */
  predicate Given(s: Option<string>) {
    s.Some? && s.value != ""
  }

  // ---------------------------------------------------------------------
  // _add_build_variable
  // ---------------------------------------------------------------------

  /** The `configs` argument: one configuration file or a list of them. */
  datatype Configs = One(path: string) | Many(paths: seq<string>)

  function ConfigList(configs: Configs): seq<string> {
    match configs
    case One(p) => [p]
    case Many(ps) => ps
  }

  /** The build name of a configuration file: its base name, less a final
      `.conf`. */
  function BuildName(c: string): string {
    var b := Basename(c);
    if EndsWith(b, ".conf") then b[..|b| - 5] else b
  }

  /** The build name is the base name with `.conf` taken off, or the whole
      base name when it has no such ending; either way it has no `/`. */
  lemma BuildNameShape(c: string)
    ensures BuildName(c) + ".conf" == Basename(c) || (BuildName(c) == Basename(c) && !EndsWith(Basename(c), ".conf"))
    ensures Lacks(BuildName(c), '/')
  {
    var b := Basename(c);
    BasenameShape(c);
    if EndsWith(b, ".conf") {
      assert b == b[..|b| - 5] + b[|b| - 5..];
    }
    assert forall i :: 0 <= i < |BuildName(c)| ==> BuildName(c)[i] == b[i];
  }

  /** The names a naming rule gives the configurations, in order. */
  function NamesBy(cs: seq<string>, nameOf: string -> string): (r: seq<string>)
    ensures |r| == |cs|
  {
    if cs == [] then [] else NamesBy(cs[..|cs| - 1], nameOf) + [nameOf(cs[|cs| - 1])]
  }

  /** The build names of the configurations, in order. */
  function Names(cs: seq<string>): (r: seq<string>)
    ensures |r| == |cs|
  {
    NamesBy(cs, BuildName)
  }

  /** The map the loop builds from configurations with the given build
      names: each name maps to the last configuration with that name. */
  function MapOf(names: seq<string>, cs: seq<string>): map<string, string>
    requires |names| == |cs|
  {
    if cs == [] then map[]
    else MapOf(names[..|names| - 1], cs[..|cs| - 1])[names[|names| - 1] := cs[|cs| - 1]]
  }

  /** One step of the choice of default: a name replaces a default that is
      still `None` or `''`. */
  function NextDefault(d: Option<string>, opt: string): Option<string> {
    if d.None? || d.value == "" then Some(opt) else d
  }

  /** The default the loop chooses from the build names: each name
      replaces a default that is still `None` or `''`. */
  function DefaultOf(names: seq<string>): Option<string> {
    if names == [] then None
    else NextDefault(DefaultOf(names[..|names| - 1]), names[|names| - 1])
  }

  /** `_add_build_variable(vars, configs)`: the build map it returns and
      the default it gives the `build` variable. */
  method AddBuildVariable(configs: Configs) returns (buildmap: map<string, string>, default: Option<string>)
    ensures buildmap == MapOf(Names(ConfigList(configs)), ConfigList(configs))
    ensures default == DefaultOf(Names(ConfigList(configs)))
  {
    buildmap, default := CollectBuilds(ConfigList(configs), BuildName);
  }

  /** The loop of `_add_build_variable`, for the naming rule `nameOf`: each
      configuration is entered in the map under its name, and the first
      name that is not empty becomes the default. */
  method CollectBuilds(cs: seq<string>, nameOf: string -> string)
    returns (buildmap: map<string, string>, default: Option<string>)
    ensures buildmap == MapOf(NamesBy(cs, nameOf), cs)
    ensures default == DefaultOf(NamesBy(cs, nameOf))
  {
    buildmap := map[];
    default := None;
    var i := 0;
    while i < |cs|
      invariant 0 <= i <= |cs|
      invariant buildmap == MapOf(NamesBy(cs[..i], nameOf), cs[..i])
      invariant default == DefaultOf(NamesBy(cs[..i], nameOf))
    {
      var c := cs[i];
      var opt := nameOf(c);
      BuildStep(cs, i, nameOf);
      if default.None? || default.value == "" {
        default := Some(opt);
      }
      buildmap := buildmap[opt := c];
      i := i + 1;
    }
    assert cs[..|cs|] == cs;
  }

  /** One more configuration: its name is added to the map and may become
      the default. */
  lemma BuildStep(cs: seq<string>, i: nat, nameOf: string -> string)
    requires i < |cs|
    ensures var names, opt := NamesBy(cs[..i], nameOf), nameOf(cs[i]);
            NamesBy(cs[..i + 1], nameOf) == names + [opt] &&
            MapOf(NamesBy(cs[..i + 1], nameOf), cs[..i + 1]) == MapOf(names, cs[..i])[opt := cs[i]] &&
            DefaultOf(NamesBy(cs[..i + 1], nameOf)) == NextDefault(DefaultOf(names), opt)
  {
    assert cs[..i + 1][..i] == cs[..i];
    var names := NamesBy(cs[..i + 1], nameOf);
    assert names[..i] == NamesBy(cs[..i], nameOf);
  }

  /** The position of the last entry equal to `name`, or -1. */
  function LastNamed(names: seq<string>, name: string): (k: int)
    ensures -1 <= k < |names|
    ensures 0 <= k ==> names[k] == name
    ensures forall j :: k < j < |names| ==> names[j] != name
  {
    if names == [] then -1
    else if names[|names| - 1] == name then |names| - 1
    else LastNamed(names[..|names| - 1], name)
  }

  /** A name is a key of the build map exactly when some configuration has
      it, and it maps to the last such configuration. */
  lemma {:induction false} BuildMapLookup(names: seq<string>, cs: seq<string>, name: string)
    requires |names| == |cs|
    ensures name in MapOf(names, cs) <==> LastNamed(names, name) >= 0
    ensures name in MapOf(names, cs) ==> MapOf(names, cs)[name] == cs[LastNamed(names, name)]
  {
    if cs != [] {
      BuildMapLookup(names[..|names| - 1], cs[..|cs| - 1], name);
    }
  }

  /** The position of the first non-empty name, or `|names|` when there is
      none. */
  function FirstNamed(names: seq<string>): (k: nat)
    ensures k <= |names|
    ensures forall j :: 0 <= j < k ==> names[j] == ""
    ensures k < |names| ==> names[k] != ""
  {
    if names == [] then 0
    else
      var f := FirstNamed(names[..|names| - 1]);
      if f < |names| - 1 then f
      else if names[|names| - 1] != "" then |names| - 1
      else |names|
  }

  /** The default is the first build name that is not empty; failing that
      it is `''`, and with no configuration at all it is `None`. */
  lemma {:induction false} DefaultIsFirstNamed(names: seq<string>)
    ensures names == [] <==> DefaultOf(names) == None
    ensures FirstNamed(names) < |names| ==> DefaultOf(names) == Some(names[FirstNamed(names)])
    ensures names != [] && FirstNamed(names) == |names| ==> DefaultOf(names) == Some("")
  {
    if names != [] {
      var init := names[..|names| - 1];
      DefaultIsFirstNamed(init);
      if FirstNamed(init) < |init| {
        assert names[FirstNamed(init)] == init[FirstNamed(init)];
      }
    }
  }

  /** The default is always one of the allowed values, the keys of the
      build map. */
  lemma DefaultIsKey(names: seq<string>, cs: seq<string>)
    requires |names| == |cs|
    ensures DefaultOf(names).Some? ==> DefaultOf(names).value in MapOf(names, cs)
  {
    DefaultIsFirstNamed(names);
    var d := DefaultOf(names);
    if d.Some? {
      var i := if FirstNamed(names) < |names| then FirstNamed(names) else 0;
      assert names[i] == d.value;
      BuildMapLookup(names, cs, d.value);
    }
  }

  // ---------------------------------------------------------------------
  // _setup_service_name
  // ---------------------------------------------------------------------

  const BadServiceModule := "service_module must be all lowercase and contain no spaces"

  /** The module name derived from the service name: lower-cased, with
      every space replaced by `_`. */
  function DefaultModule(serviceName: string): string {
    ReplaceAll(Lower(serviceName), " ", "_")
  }

  /** The `service_module` that `_setup_service_name` settles on, or the
      message of its `ValueError`. */
  function ServiceModule(serviceName: string, serviceModule: Option<string>): Result<string, string> {
    if Given(serviceModule) then
      var m := serviceModule.value;
      if ' ' in m || Lower(m) != m then Err(BadServiceModule) else Ok(m)
    else Ok(DefaultModule(serviceName))
  }

  /** What an explicit module name must be: without spaces and without
      upper-case letters. */
  predicate ValidModule(m: string) {
    Lacks(m, ' ') && forall i :: 0 <= i < |m| ==> !IsAsciiUpper(m[i])
  }

  /** An explicit module name is taken as it is exactly when it is valid;
      without one, the derived name is taken. */
  lemma ServiceModuleIff(serviceName: string, serviceModule: Option<string>)
    ensures ServiceModule(serviceName, serviceModule).Ok? <==> !Given(serviceModule) || ValidModule(serviceModule.value)
    ensures Given(serviceModule) && ServiceModule(serviceName, serviceModule).Ok? ==>
              ServiceModule(serviceName, serviceModule).value == serviceModule.value
    ensures !Given(serviceModule) ==> ServiceModule(serviceName, serviceModule) == Ok(DefaultModule(serviceName))
    ensures ServiceModule(serviceName, serviceModule).Err? ==>
              ServiceModule(serviceName, serviceModule).error == BadServiceModule
  {
    if Given(serviceModule) {
      LowerChangesIffUpper(serviceModule.value);
    }
  }

  /** The derived name is itself valid, so naming it explicitly gives the
      same result as not naming a module at all. */
  lemma DefaultModuleValid(serviceName: string)
    ensures ValidModule(DefaultModule(serviceName))
    ensures ServiceModule(serviceName, Some(DefaultModule(serviceName))) == ServiceModule(serviceName, None)
  {
    var l := Lower(serviceName);
    var d := DefaultModule(serviceName);
    ReplaceOneChar(l, ' ', '_');
    assert forall i :: 0 <= i < |d| ==> d[i] == if l[i] == ' ' then '_' else l[i];
    LowerChangesIffUpper(d);
  }

  /** The derived name of a service name with capitals. */
  lemma DefaultModuleOfCapitals()
    ensures DefaultModule("ModFoo") == "modfoo"
  {
    var l := Lower("ModFoo");
    assert l == "modfoo";
    ReplaceOneChar(l, ' ', '_');
    var d := DefaultModule("ModFoo");
    assert d[0] == 'm' && d[1] == 'o' && d[2] == 'd' && d[3] == 'f' && d[4] == 'o' && d[5] == 'o';
  }

  /** The derived name of a service name with capitals and a space. */
  lemma DefaultModuleOfSpaced()
    ensures DefaultModule("MOD FOO") == "mod_foo"
  {
    var l := Lower("MOD FOO");
    assert l == "mod foo";
    ReplaceOneChar(l, ' ', '_');
    var d := DefaultModule("MOD FOO");
    assert |d| == 7;
    assert d[0] == 'm' && d[1] == 'o' && d[2] == 'd' && d[3] == '_' && d[4] == 'f' && d[5] == 'o' && d[6] == 'o';
  }

  // ---------------------------------------------------------------------
  // _setup_install_directories
  // ---------------------------------------------------------------------

  /** The entries of the SCons environment that the build rules set and
      read; any other entry is `Other(name)`. */
  datatype Key =
    | ServiceNameKey | ServiceModuleKey
    | Instdir | Bindir | Confdir | Pythondir | Htmldir | Frontenddir | Txtdir | Cgidir | Perldir
    | Other(name: string)

  /** The subdirectory of the install directory each layout entry names. */
  function Subdir(k: Key): string {
    match k
    case Bindir => "bin"
    case Confdir => "conf"
    case Pythondir => "python"
    case Htmldir => "html"
    case Frontenddir => "frontend"
    case Txtdir => "txt"
    case Cgidir => "cgi"
    case Perldir => "lib"
    case _ => ""
  }

  const LayoutKeys: set<Key> := {Instdir, Bindir, Confdir, Pythondir, Htmldir, Frontenddir, Txtdir, Cgidir, Perldir}

  /** The directories `_setup_install_directories` derives from the
      install directory. */
  function InstallLayout(inst: string): map<Key, string> {
    map k | k in LayoutKeys :: LayoutDir(inst, k)
  }

  /** The directory one layout entry names. */
  function LayoutDir(inst: string, k: Key): string {
    if k == Instdir then inst else PathJoin(inst, Subdir(k))
  }

  /** `inst` with the `/` that `os.path.join` puts after it. */
  function Slashed(inst: string): string {
    if inst == [] || inst[|inst| - 1] == '/' then inst else inst + "/"
  }

  /** A path below `os.path.join(inst, kind)` carries the first two
      characters of `kind` right after `inst/`. */
  lemma UnderKind(inst: string, kind: string, rest: string)
    requires |kind| >= 2 && !IsAbsolute(kind)
    requires PathJoin(inst, kind) <= rest
    ensures |Slashed(inst)| + 2 <= |rest|
    ensures rest[|Slashed(inst)|] == kind[0] && rest[|Slashed(inst)| + 1] == kind[1]
  {
    var p := |Slashed(inst)|;
    assert PathJoin(inst, kind) == Slashed(inst) + kind;
    assert rest[p] == PathJoin(inst, kind)[p];
    assert rest[p + 1] == PathJoin(inst, kind)[p + 1];
  }

  /** Each subdirectory of the layout is a relative name of at least two
      characters, and no two start with the same two characters. */
  lemma SubdirsApart(k1: Key, k2: Key)
    requires k1 in LayoutKeys && k1 != Instdir && k2 in LayoutKeys && k2 != Instdir
    ensures |Subdir(k1)| >= 2 && !IsAbsolute(Subdir(k1))
    ensures k1 != k2 ==> Subdir(k1)[0] != Subdir(k2)[0] || Subdir(k1)[1] != Subdir(k2)[1]
  {
  }

  /** No two entries of the layout name the same directory. */
  lemma InstallDirsDistinct(inst: string)
    ensures forall k1, k2 :: k1 in InstallLayout(inst) && k2 in InstallLayout(inst) && k1 != k2 ==>
              InstallLayout(inst)[k1] != InstallLayout(inst)[k2]
  {
    var layout := InstallLayout(inst);
    var p := |Slashed(inst)|;
    forall k | k in layout && k != Instdir
      ensures p + 2 <= |layout[k]|
      ensures layout[k][p] == Subdir(k)[0] && layout[k][p + 1] == Subdir(k)[1]
    {
      SubdirsApart(k, k);
      UnderKind(inst, Subdir(k), layout[k]);
    }
    forall k1, k2 | k1 in layout && k2 in layout && k1 != k2
      ensures layout[k1] != layout[k2]
    {
      if k1 != Instdir && k2 != Instdir {
        SubdirsApart(k1, k2);
      }
    }
  }

  /** The entries of the SCons environment. */
  class Env {
    var vars: map<Key, string>

    constructor (vars: map<Key, string>)
      ensures this.vars == vars
    {
      this.vars := vars;
    }

    /** `_setup_service_name(env, config, service_module)`: the service
        name is stored before the module name is checked, so it is set
        even when the check fails. */
    method SetupServiceName(serviceName: string, serviceModule: Option<string>) returns (r: Result<(), string>)
      modifies this
      ensures ServiceModule(serviceName, serviceModule).Ok? ==>
                r.Ok? && vars == old(vars)[ServiceNameKey := serviceName][ServiceModuleKey := ServiceModule(serviceName, serviceModule).value]
      ensures ServiceModule(serviceName, serviceModule).Err? ==>
                r == Err(BadServiceModule) && vars == old(vars)[ServiceNameKey := serviceName]
    {
      vars := vars[ServiceNameKey := serviceName];
      if Given(serviceModule) {
        var m := serviceModule.value;
        if ' ' in m || Lower(m) != m {
          return Err(BadServiceModule);
        }
        vars := vars[ServiceModuleKey := m];
      } else {
        vars := vars[ServiceModuleKey := ReplaceAll(Lower(serviceName), " ", "_")];
      }
      r := Ok(());
    }

    /** `_setup_install_directories(env)`, given `config.directories['install']`:
        it sets the nine layout entries and leaves the others. */
    method SetupInstallDirectories(install: string)
      modifies this
      ensures vars == old(vars) + InstallLayout(install)
    {
      vars := vars + InstallLayout(install);
    }
  }

  // ---------------------------------------------------------------------
  // _format_shell_command and _check_sql_username_length
  // ---------------------------------------------------------------------

  const SudoPrefix := "/usr/bin/sudo -u "

  /** The command has to be run as the backend user: `SUDO_USER` is set
      and names someone else. */
  predicate NeedsSudo(sudoUser: Option<string>, backendUser: string) {
    Given(sudoUser) && sudoUser.value != backendUser
  }

  /** `_format_shell_command(env, cmd)`, with the `SUDO_USER` environment
      variable as a parameter: the command, preceded by a `sudo` to the
      backend user exactly when one is needed. */
  function FormatShellCommand(sudoUser: Option<string>, backendUser: string, cmd: string): (r: string)
    ensures EndsWith(r, cmd)
    ensures r != cmd <==> NeedsSudo(sudoUser, backendUser)
    ensures r != cmd ==> r[..|r| - |cmd|] == SudoPrefix + backendUser + " "
  {
    if NeedsSudo(sudoUser, backendUser) then
      var r := SudoPrefix + backendUser + " " + cmd;
      assert r[|r| - |cmd|..] == cmd;
      r
    else cmd
  }

  /** The cases the build tests show. */
  lemma FormatShellCommandExamples()
    ensures FormatShellCommand(Some("testuser"), "testuser", "foo") == "foo"
    ensures FormatShellCommand(None, "testuser", "foo") == "foo"
    ensures FormatShellCommand(Some("otheruser"), "testuser", "foo") == "/usr/bin/sudo -u testuser foo"
  {
  }

  const MaxSqlUserName := 16

  /** The message printed before the build exits. */
  function UsernameTooLong(typ: string): string {
    "\n** The database username for the " + typ + "end user is too long;\n" +
    "** MySQL usernames can be at most 16 characters long.\n" +
    "** Please shorten the username in the configuration file.\n"
  }

  /** `_check_sql_username_length(env, auth, typ)`: the build exits with a
      message naming the user's role exactly when the name is longer than
      MySQL allows. */
  function CheckSqlUsernameLength(username: string, typ: string): (r: Result<(), string>)
    ensures r.Ok? <==> |username| <= MaxSqlUserName
    ensures r.Err? ==> r.error == UsernameTooLong(typ)
  {
    if |username| > MaxSqlUserName then Err(UsernameTooLong(typ)) else Ok(())
  }

  /** The user names that the service generator derives always pass the
      check. */
  lemma GeneratedUsersPass(shortName: string)
    ensures CheckSqlUsernameLength(MakeWebServices.DatabaseName(shortName, "front"), "front").Ok?
    ensures CheckSqlUsernameLength(MakeWebServices.DatabaseName(shortName, "back"), "back").Ok?
  {
  }

  // ---------------------------------------------------------------------
  // Where the Install* methods put files
  // ---------------------------------------------------------------------

  /** `os.path.join(dir, subdir)` when `subdir` is given, `dir` otherwise:
      a relative `subdir` stays below `dir`, an absolute one replaces it. */
  function WithSubdir(dir: string, subdir: Option<string>): (r: string)
    ensures !Given(subdir) ==> r == dir
    ensures Given(subdir) && !IsAbsolute(subdir.value) ==> dir <= r
    ensures Given(subdir) && IsAbsolute(subdir.value) ==> r == subdir.value
  {
    if Given(subdir) then
      PathJoinShape(dir, subdir.value);
      PathJoin(dir, subdir.value)
    else dir
  }

  /** The entries of the environment the install rules read. */
  predicate HasLayout(env: map<Key, string>) {
    LayoutKeys <= env.Keys && ServiceModuleKey in env
  }

  /** The layout entries the `Install*` rules put files under. */
  const InstallKinds: set<Key> := {Pythondir, Htmldir, Frontenddir, Txtdir, Cgidir, Perldir}

  /** The directory each rule installs into: `_InstallPython` and
      `_InstallFrontend` (and `_InstallPythonFrontend`) into a directory
      named after the service module, `_InstallHTML`, `_InstallTXT`,
      `_InstallCGI` and `_InstallPerl` straight into their layout entry;
      each then below the optional `subdir`. */
  function InstallDir(env: map<Key, string>, k: Key, subdir: Option<string>): string
    requires HasLayout(env) && k in InstallKinds
  {
    if k == Pythondir || k == Frontenddir then WithSubdir(PathJoin(env[k], env[ServiceModuleKey]), subdir)
    else WithSubdir(env[k], subdir)
  }

  /** Each file of a list, placed in one directory. */
  function Targets(dir: string, files: seq<string>): (r: seq<string>)
    ensures |r| == |files|
    ensures forall i :: 0 <= i < |files| ==> EndsWith(r[i], files[i])
    ensures forall i :: 0 <= i < |files| && !IsAbsolute(files[i]) ==> dir <= r[i]
  {
    var r := seq(|files|, i requires 0 <= i < |files| => PathJoin(dir, files[i]));
    assert forall i :: 0 <= i < |files| ==> EndsWith(r[i], files[i]) && (!IsAbsolute(files[i]) ==> dir <= r[i]) by {
      forall i | 0 <= i < |files| ensures EndsWith(r[i], files[i]) && (!IsAbsolute(files[i]) ==> dir <= r[i]) {
        PathJoinShape(dir, files[i]);
      }
    }
    r
  }

  const DefaultAdminTools := ["resubmit", "service", "deljob", "failjob", "delete_all_jobs", "list_jobs"]
  const DefaultCgiScripts := ["help.cgi", "index.cgi", "queue.cgi", "results.cgi", "submit.cgi", "download.cgi", "job"]

  /** The scripts `_InstallAdminTools` writes: one `<tool>.py` per tool
      (the default list when none is given) and `webservice.py`. */
  function AdminToolTargets(env: map<Key, string>, tools: Option<seq<string>>): (r: seq<string>)
    requires HasLayout(env)
    ensures |r| == (if tools.None? then |DefaultAdminTools| else |tools.value|) + 1
    ensures r[|r| - 1] == PathJoin(env[Bindir], "webservice.py")
  {
    var ts := if tools.None? then DefaultAdminTools else tools.value;
    Targets(env[Bindir], seq(|ts|, i requires 0 <= i < |ts| => ts[i] + ".py")) +
      [PathJoin(env[Bindir], "webservice.py")]
  }

  /** The scripts `_InstallCGIScripts` writes (the default list when none
      is given). */
  function CgiScriptTargets(env: map<Key, string>, scripts: Option<seq<string>>): (r: seq<string>)
    requires HasLayout(env)
    ensures |r| == if scripts.None? then |DefaultCgiScripts| else |scripts.value|
  {
    Targets(env[Cgidir], if scripts.None? then DefaultCgiScripts else scripts.value)
  }

  /** The environment laid out under `inst` for the module `moduleName`. */
  function StandardEnv(inst: string, moduleName: string): (env: map<Key, string>)
    ensures HasLayout(env)
  {
    InstallLayout(inst)[ServiceModuleKey := moduleName]
  }

  /** With a relative module name and a relative (or no) subdirectory,
      the six kinds of installed files go to six different directories:
      each lies below its own entry of the layout. */
  lemma InstallKindsApart(inst: string, moduleName: string, subdir: Option<string>)
    requires !IsAbsolute(moduleName)
    requires !Given(subdir) || !IsAbsolute(subdir.value)
    ensures forall k1, k2 :: k1 in InstallKinds && k2 in InstallKinds && k1 != k2 ==>
              InstallDir(StandardEnv(inst, moduleName), k1, subdir) != InstallDir(StandardEnv(inst, moduleName), k2, subdir)
  {
    var env := StandardEnv(inst, moduleName);
    forall k1, k2 | k1 in InstallKinds && k2 in InstallKinds && k1 != k2
      ensures InstallDir(env, k1, subdir) != InstallDir(env, k2, subdir)
    {
      InstallDirsDiffer(inst, moduleName, subdir, k1, k2);
    }
  }

  lemma InstallDirsDiffer(inst: string, moduleName: string, subdir: Option<string>, k1: Key, k2: Key)
    requires !IsAbsolute(moduleName)
    requires !Given(subdir) || !IsAbsolute(subdir.value)
    requires k1 in InstallKinds && k2 in InstallKinds && k1 != k2
    ensures InstallDir(StandardEnv(inst, moduleName), k1, subdir) != InstallDir(StandardEnv(inst, moduleName), k2, subdir)
  {
    var env := StandardEnv(inst, moduleName);
    var d1, d2 := InstallDir(env, k1, subdir), InstallDir(env, k2, subdir);
    InstallDirUnder(inst, moduleName, subdir, k1);
    InstallDirUnder(inst, moduleName, subdir, k2);
    BelowApart(inst, k1, k2, d1, d2);
  }

  lemma StandardEnvEntry(inst: string, moduleName: string, k: Key)
    requires k in InstallKinds
    ensures StandardEnv(inst, moduleName)[k] == PathJoin(inst, Subdir(k))
    ensures StandardEnv(inst, moduleName)[ServiceModuleKey] == moduleName
  {
    assert k in LayoutKeys && k != Instdir;
  }

  /** Each rule's directory lies below its layout entry. */
  lemma InstallDirUnder(inst: string, moduleName: string, subdir: Option<string>, k: Key)
    requires !IsAbsolute(moduleName)
    requires !Given(subdir) || !IsAbsolute(subdir.value)
    requires k in InstallKinds
    ensures PathJoin(inst, Subdir(k)) <= InstallDir(StandardEnv(inst, moduleName), k, subdir)
  {
    var env := StandardEnv(inst, moduleName);
    StandardEnvEntry(inst, moduleName, k);
    InstallDirBelow(env, k, subdir);
  }

  /** In any environment with a relative module name and a relative (or
      no) subdirectory, a rule's directory starts with its layout entry. */
  lemma InstallDirBelow(env: map<Key, string>, k: Key, subdir: Option<string>)
    requires HasLayout(env) && k in InstallKinds
    requires !IsAbsolute(env[ServiceModuleKey])
    requires !Given(subdir) || !IsAbsolute(subdir.value)
    ensures env[k] <= InstallDir(env, k, subdir)
  {
    var top := env[k];
    if k == Pythondir || k == Frontenddir {
      var mid := PathJoin(top, env[ServiceModuleKey]);
      PathJoinShape(top, env[ServiceModuleKey]);
      assert top <= mid;
      assert mid <= WithSubdir(mid, subdir);
      PrefixOfPrefix(top, mid, WithSubdir(mid, subdir));
    } else {
      assert top <= WithSubdir(top, subdir);
    }
  }

  lemma PrefixOfPrefix(a: string, b: string, c: string)
    requires a <= b && b <= c
    ensures a <= c
  {
    assert a == b[..|a|] == c[..|a|];
  }

  /** Paths below two different entries of the layout differ. */
  lemma BelowApart(inst: string, k1: Key, k2: Key, d1: string, d2: string)
    requires k1 in InstallKinds && k2 in InstallKinds && k1 != k2
    requires PathJoin(inst, Subdir(k1)) <= d1 && PathJoin(inst, Subdir(k2)) <= d2
    ensures d1 != d2
  {
    SubdirsApart(k1, k2);
    SubdirsApart(k2, k1);
    UnderKind(inst, Subdir(k1), d1);
    UnderKind(inst, Subdir(k2), d2);
  }

  // ---------------------------------------------------------------------
  // _Frontend
  // ---------------------------------------------------------------------

  /** The `ValueError` message for a frontend without a configuration
      section. */
  function NoFrontend(name: string): string {
    "No frontend:" + name + " section found in config file"
  }

  /** The entries `_Frontend` replaces. */
  predicate FrontendPart(k: Key) {
    k == Cgidir || k == Htmldir || k == Frontenddir || k == Txtdir || k == ServiceModuleKey
  }

  /** `_Frontend(env, name)`: a copy of the environment whose CGI, HTML,
      frontend and text directories lie in `<instdir>/<name>`, and whose
      module is the frontend's name. */
  function FrontendEnv(env: map<Key, string>, name: string, frontends: set<string>): Result<map<Key, string>, string>
    requires HasLayout(env)
  {
    if name !in frontends then Err(NoFrontend(name))
    else
      var inst := env[Instdir];
      Ok(env[Cgidir := PathJoin(PathJoin(inst, name), "cgi")]
            [Htmldir := PathJoin(PathJoin(inst, name), "html")]
            [Frontenddir := PathJoin(PathJoin(inst, name), "frontend")]
            [Txtdir := PathJoin(PathJoin(inst, name), "txt")]
            [ServiceModuleKey := name])
  }

  /** A frontend without a section is refused; otherwise the copy keeps
      every other entry, and for a non-empty relative name its CGI
      directory differs from the service's own. */
  lemma FrontendEnvProperties(env: map<Key, string>, name: string, frontends: set<string>)
    requires HasLayout(env)
    ensures FrontendEnv(env, name, frontends).Err? <==> name !in frontends
    ensures FrontendEnv(env, name, frontends).Err? ==> FrontendEnv(env, name, frontends).error == NoFrontend(name)
    ensures FrontendEnv(env, name, frontends).Ok? ==>
              var e := FrontendEnv(env, name, frontends).value;
              e.Keys == env.Keys && e[ServiceModuleKey] == name &&
              (forall k :: k in env && !FrontendPart(k) ==> e[k] == env[k])
    ensures FrontendEnv(env, name, frontends).Ok? && name != "" && !IsAbsolute(name) &&
            env[Cgidir] == PathJoin(env[Instdir], "cgi") ==>
              FrontendEnv(env, name, frontends).value[Cgidir] != env[Cgidir]
  {
    var inst := env[Instdir];
    if name in frontends && name != "" && !IsAbsolute(name) {
      assert |PathJoin(PathJoin(inst, name), "cgi")| > |PathJoin(inst, "cgi")|;
    }
  }

  // ---------------------------------------------------------------------
  // The "##CONFIG##" substitution
  // ---------------------------------------------------------------------

  /** The placeholder, double quotes included. */
  const Marker := "\"##CONFIG##\""

  /** What `_subst_install` puts in place of the marker in CGI scripts and
      Perl modules: the configuration file, the version (`undef` for
      `'None'`), the service name and the frontend (`undef` for none). */
  function ConfigArgs(configFile: string, version: string, serviceName: string, frontend: string): string {
    var v := if version != "None" then "'" + version + "'" else "undef";
    var f := if frontend == "" then "undef" else "'" + frontend + "'";
    "'" + configFile + "', " + v + ", '" + serviceName + "', " + f
  }

  /** What `_subst_python_install` puts in place of the marker in Python
      frontend files: `None` stays a bare `None`. */
  function PythonConfigArgs(configFile: string, version: string): string {
    var v := if version == "None" then "None" else "'" + version + "'";
    "'" + configFile + "', " + v
  }

  /** Every line with each marker replaced. */
  function SubstLines(lines: seq<string>, args: string): (r: seq<string>)
    ensures |r| == |lines|
    ensures forall i :: 0 <= i < |lines| ==> r[i] == ReplaceAll(lines[i], Marker, args)
  {
    seq(|lines|, i requires 0 <= i < |lines| => ReplaceAll(lines[i], Marker, args))
  }

  /** The line loop of `_subst_install` and `_subst_python_install`. */
  method SubstituteLines(lines: seq<string>, args: string) returns (out: seq<string>)
    ensures out == SubstLines(lines, args)
  {
    out := [];
    var i := 0;
    while i < |lines|
      invariant 0 <= i <= |lines|
      invariant out == SubstLines(lines[..i], args)
    {
      out := out + [ReplaceAll(lines[i], Marker, args)];
      i := i + 1;
    }
    assert lines[..|lines|] == lines;
  }

  /** Lines without the marker are copied unchanged; a line holding one
      marker gets the arguments in its place. */
  lemma SubstLineCases(a: string, b: string, args: string)
    ensures !Contains(a, Marker) ==> ReplaceAll(a, Marker, args) == a
    ensures !Contains(a + Marker[..|Marker| - 1], Marker) && !Contains(b, Marker) ==>
              ReplaceAll(a + Marker + b, Marker, args) == a + args + b
  {
    if !Contains(a, Marker) {
      ReplaceAbsent(a, Marker, args);
    }
    if !Contains(a + Marker[..|Marker| - 1], Marker) && !Contains(b, Marker) {
      ReplaceAfter(a, Marker, args, b);
      ReplaceAbsent(b, Marker, args);
    }
  }

  /** The file the install tests substitute, for any arguments. */
  lemma SubstTestFile(args: string)
    ensures SubstLines(["line1\n", "foo" + Marker + "bar\n", "line2\n"], args) ==
            ["line1\n", "foo" + args + "bar\n", "line2\n"]
  {
    var s0 := "foo" + Marker[..|Marker| - 1];
    var s1 := s0[1..];
    var s2 := s1[1..];
    ShortLacks(s2[1..], Marker);
    assert s0[0] != Marker[0] && s1[0] != Marker[0] && s2[0] != Marker[0];
    assert !Contains(s2, Marker);
    assert !Contains(s1, Marker);
    assert !Contains(s0, Marker);
    ShortLacks("bar\n", Marker);
    SubstLineCases("foo", "bar\n", args);
    assert ReplaceAll("foo" + Marker + "bar\n", Marker, args) == "foo" + args + "bar\n";
    assert ReplaceAll("line1\n", Marker, args) == "line1\n";
  }

  /** The install tests without a frontend, each line built as the test
      formats it: the empty frontend becomes `undef`, and so does a version
      of `None`; any other version is quoted. */
  lemma SubstInstallNoFrontend()
    ensures SubstLines(["line1\n", "foo" + Marker + "bar\n", "line2\n"], ConfigArgs("mycfg", "None", "myser", "")) ==
            ["line1\n", "foo" + ("'mycfg', " + "undef" + ", 'myser', " + "undef") + "bar\n", "line2\n"]
    ensures SubstLines(["line1\n", "foo" + Marker + "bar\n", "line2\n"], ConfigArgs("mycfg", "r345", "myser", "")) ==
            ["line1\n", "foo" + ("'mycfg', " + "'r345'" + ", 'myser', " + "undef") + "bar\n", "line2\n"]
  {
    assert "'" + "mycfg" + "', " == "'mycfg', ";
    assert ", '" + "myser" + "', " == ", 'myser', ";
    assert "'" + "r345" + "'" == "'r345'";
    assert ConfigArgs("mycfg", "None", "myser", "") == "'mycfg', " + "undef" + ", 'myser', " + "undef";
    SubstTestFile(ConfigArgs("mycfg", "None", "myser", ""));
    assert ConfigArgs("mycfg", "r345", "myser", "") == "'mycfg', " + "'r345'" + ", 'myser', " + "undef";
    SubstTestFile(ConfigArgs("mycfg", "r345", "myser", ""));
  }

  /** The install tests with a frontend, each line built as the test
      formats it: the frontend is quoted, a version of `None` becomes
      `undef` and any other version is quoted. */
  lemma SubstInstallWithFrontend()
    ensures SubstLines(["line1\n", "foo" + Marker + "bar\n", "line2\n"], ConfigArgs("mycfg", "None", "myser", "dummyfront")) ==
            ["line1\n", "foo" + ("'mycfg', " + "undef" + ", 'myser', " + "'dummyfront'") + "bar\n", "line2\n"]
    ensures SubstLines(["line1\n", "foo" + Marker + "bar\n", "line2\n"], ConfigArgs("mycfg", "r345", "myser", "dummyfront")) ==
            ["line1\n", "foo" + ("'mycfg', " + "'r345'" + ", 'myser', " + "'dummyfront'") + "bar\n", "line2\n"]
  {
    assert "'" + "mycfg" + "', " == "'mycfg', ";
    assert ", '" + "myser" + "', " == ", 'myser', ";
    assert "'" + "r345" + "'" == "'r345'";
    assert "'" + "dummyfront" + "'" == "'dummyfront'";
    assert ConfigArgs("mycfg", "None", "myser", "dummyfront") == "'mycfg', " + "undef" + ", 'myser', " + "'dummyfront'";
    SubstTestFile(ConfigArgs("mycfg", "None", "myser", "dummyfront"));
    assert ConfigArgs("mycfg", "r345", "myser", "dummyfront") == "'mycfg', " + "'r345'" + ", 'myser', " + "'dummyfront'";
    SubstTestFile(ConfigArgs("mycfg", "r345", "myser", "dummyfront"));
  }

  /** In Python frontend files a version of `None` stays the bare Python
      constant `None`, and any other version is quoted. */
  lemma SubstPythonCases()
    ensures SubstLines(["line1\n", "foo" + Marker + "bar\n", "line2\n"], PythonConfigArgs("mycfg", "None")) ==
            ["line1\n", "foo" + ("'mycfg', " + "None") + "bar\n", "line2\n"]
    ensures SubstLines(["line1\n", "foo" + Marker + "bar\n", "line2\n"], PythonConfigArgs("mycfg", "r345")) ==
            ["line1\n", "foo" + ("'mycfg', " + "'r345'") + "bar\n", "line2\n"]
  {
    assert "'" + "mycfg" + "', " == "'mycfg', ";
    assert "'" + "r345" + "'" == "'r345'";
    assert PythonConfigArgs("mycfg", "None") == "'mycfg', " + "None";
    SubstTestFile(PythonConfigArgs("mycfg", "None"));
    assert PythonConfigArgs("mycfg", "r345") == "'mycfg', " + "'r345'";
    SubstTestFile(PythonConfigArgs("mycfg", "r345"));
  }

  // ---------------------------------------------------------------------
  // _InstallPerl
  // ---------------------------------------------------------------------

  /** `os.path.splitext(p)[0]`: `p` less its extension, which runs from
      the last `.` of the base name, provided something other than dots
      comes before that `.` in the base name. */
  function SplitextRoot(p: string): (r: string)
    ensures r <= p
  {
    var sep := LastIndex(p, '/');
    var dot := LastIndex(p, '.');
    if dot > sep && exists k :: sep < k < dot && p[k] != '.' then p[..dot] else p
  }

  /** A plain module file name loses exactly its extension. */
  lemma SplitextPlain(name: string, ext: string)
    requires name != [] && Lacks(name, '.') && Lacks(name, '/') && Lacks(ext, '.') && Lacks(ext, '/')
    ensures SplitextRoot(name + "." + ext) == name
  {
    var p := name + "." + ext;
    assert p[|name|] == '.';
    assert forall k :: |name| < k < |p| ==> p[k] == ext[k - |name| - 1];
    assert LastIndex(p, '.') == |name|;
    assert forall k :: 0 <= k < |name| ==> p[k] == name[k];
    assert LastIndex(p, '/') == -1;
    assert p[0] != '.';
  }

  /** The service name and frontend `_InstallPerl` substitutes into one
      Perl module: those of the frontend named like the module, if there
      is one, else the service's own and no frontend. */
  function PerlSubstValues(file: string, frontends: map<string, string>, serviceName: string): (r: (string, string))
    ensures SplitextRoot(file) in frontends ==> r.1 == SplitextRoot(file) && r.0 == frontends[r.1]
    ensures SplitextRoot(file) !in frontends ==> r == (serviceName, "")
  {
    var modname := SplitextRoot(file);
    if modname in frontends then (frontends[modname], modname) else (serviceName, "")
  }
}
