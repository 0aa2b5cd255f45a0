/**
 * `testr/runner.py`: the in-package test entry points `testr()` and `test()`
 * and the version string `get_full_version()`.
 *
 * `test()` works on its own copy of the keyword arguments (a Python
 * `**kwargs` dictionary is built afresh for every call), pops the options it
 * understands, builds the pytest argument list step by step from flags and
 * environment variables, and hands the list either to `pytest.main` or to a
 * `coverage run -m pytest` subprocess. Both runners, the environment, the
 * file system and git are parameters of the model.
 */
module Runner {
  import opened Common

  /** The option that makes pytest ignore the warnings matching what follows it. */
  const IgnorePrefix := "-Wignore:"

  /** Warning filters passed to every pytest run. */
  const IgnoreWarnings: seq<string> := [
    IgnorePrefix + "numpy.ufunc size changed:RuntimeWarning",
    IgnorePrefix + "the imp module is deprecated in favour of importlib:DeprecationWarning",
    IgnorePrefix + "parse functions are required to provide a named:PendingDeprecationWarning",
    IgnorePrefix + "Using or importing the ABCs:DeprecationWarning",
    IgnorePrefix + "`np.object` is a deprecated alias for the builtin `object`",
    IgnorePrefix + " 'soft_unicode' has been renamed to 'soft_str'",
    IgnorePrefix + "  Creating an ndarray from ragged nested sequences"
  ]

  // ---------------------------------------------------------------------
  // Keyword arguments

  /** A keyword-argument value, as far as `test` looks at it. */
  datatype Value = Flag(b: bool) | Int(i: int) | Text(s: string) | Other

  /** Python truthiness of a value. */
  predicate Truthy(v: Value) {
    match v
    case Flag(b) => b
    case Int(i) => i != 0
    case Text(s) => s != ""
    case Other => true
  }

  /** A `**kwargs` dictionary: its keys in insertion order and their values. */
  datatype Kwargs = Kwargs(keys: seq<string>, values: map<string, Value>)

  /** `s` without any occurrence of `k`, order kept. */
  function RemoveKey(s: seq<string>, k: string): (r: seq<string>)
    ensures forall x :: x in r <==> x in s && x != k
    decreases |s|
  {
    if s == [] then []
    else if s[0] == k then RemoveKey(s[1..], k)
    else [s[0]] + RemoveKey(s[1..], k)
  }

  /** `kwargs.get(key, default)`. */
  function Get(kw: Kwargs, key: string, default: Value): (v: Value)
    ensures key in kw.values ==> v == kw.values[key]
    ensures key !in kw.values ==> v == default
  {
    if key in kw.values then kw.values[key] else default
  }

  /** The dictionary left by `kwargs.pop(key, ...)`. */
  function Pop(kw: Kwargs, key: string): (r: Kwargs)
    ensures r.values == kw.values - {key}
  {
    Kwargs(RemoveKey(kw.keys, key), kw.values - {key})
  }

  /** `kwargs.setdefault(key, v)`: sets `key` only when it is absent. */
  function SetDefault(kw: Kwargs, key: string, v: Value): (r: Kwargs)
    ensures key in kw.values ==> r == kw
    ensures key !in kw.values ==> r.values == kw.values[key := v] && r.keys == kw.keys + [key]
  {
    if key in kw.values then kw else Kwargs(kw.keys + [key], kw.values[key := v])
  }

  /** `kwargs[key] = v`: a new key goes last, an existing one keeps its place. */
  function Put(kw: Kwargs, key: string, v: Value): (r: Kwargs)
    ensures r.values == kw.values[key := v]
  {
    if key in kw.values then Kwargs(kw.keys, kw.values[key := v])
    else Kwargs(kw.keys + [key], kw.values[key := v])
  }

  // ---------------------------------------------------------------------
  // testr(): package-testing defaults

  /** The options `testr` turns on unless the caller says otherwise. */
  const TestrFlags: seq<string> := ["raise_exception", "package_from_dir", "verbose", "show_output"]

  /** `setdefault(name, v)` for each of `names` in turn. */
  function SetDefaults(kw: Kwargs, names: seq<string>, v: Value): Kwargs
    decreases |names|
  {
    if names == [] then kw
    else SetDefault(SetDefaults(kw, names[..|names| - 1], v), names[|names| - 1], v)
  }

  /** The keyword arguments `testr` hands on to `test`. */
  function TestrKwargs(kw: Kwargs): Kwargs {
    Put(SetDefaults(kw, TestrFlags, Flag(true)), "stack_level", Int(2))
  }

  /** After the defaults, a listed name keeps the caller's value or gets `v`; nothing else changes. */
  lemma {:induction false} SetDefaultsValues(kw: Kwargs, names: seq<string>, v: Value)
    ensures forall k :: k in names ==>
              k in SetDefaults(kw, names, v).values
              && SetDefaults(kw, names, v).values[k] == (if k in kw.values then kw.values[k] else v)
    ensures forall k :: k !in names ==>
              (k in SetDefaults(kw, names, v).values <==> k in kw.values)
              && (k in kw.values ==> SetDefaults(kw, names, v).values[k] == kw.values[k])
    decreases |names|
  {
    if names != [] {
      SetDefaultsValues(kw, names[..|names| - 1], v);
      forall k | k in names[..|names| - 1] ensures k in names { }
      forall k | k in names ensures k in names[..|names| - 1] || k == names[|names| - 1] {
        var i :| 0 <= i < |names| && names[i] == k;
        if i < |names| - 1 { assert names[..|names| - 1][i] == k; }
      }
    }
  }

  /**
   * `testr` turns `raise_exception`, `package_from_dir`, `verbose` and
   * `show_output` on when the caller did not pass them, keeps the caller's
   * value when it did, always sets `stack_level` to 2 and leaves every other
   * keyword argument alone.
   */
  lemma TestrKwargsValues(kw: Kwargs)
    ensures TestrKwargs(kw).values["stack_level"] == Int(2)
    ensures forall k :: k in TestrFlags ==>
              k in TestrKwargs(kw).values && TestrKwargs(kw).values[k] == (if k in kw.values then kw.values[k] else Flag(true))
    ensures forall k :: k !in TestrFlags && k != "stack_level" ==>
              (k in TestrKwargs(kw).values <==> k in kw.values)
              && (k in kw.values ==> TestrKwargs(kw).values[k] == kw.values[k])
  {
    SetDefaultsValues(kw, TestrFlags, Flag(true));
  }

  /** `testr(*args, **kwargs)`: `test` with the package-testing defaults. */
  method Testr(args: seq<string>, kw: Kwargs, w: World) returns (r: Result<Outcome>)
    ensures r == TestSpec(args, TestrKwargs(kw), w)
  {
    var kwargs := kw;
    for i := 0 to |TestrFlags|
      invariant kwargs == SetDefaults(kw, TestrFlags[..i], Flag(true))
    {
      assert TestrFlags[..i + 1][..i] == TestrFlags[..i];
      kwargs := SetDefault(kwargs, TestrFlags[i], Flag(true));
    }
    assert TestrFlags[..|TestrFlags|] == TestrFlags;
    kwargs := Put(kwargs, "stack_level", Int(2));
    r := Test(args, kwargs, w);
  }

  // ---------------------------------------------------------------------
  // The pytest argument list

  /** `os.environ.get(key, default)`. */
  function EnvGet(env: map<string, string>, key: string, default: string): string {
    if key in env then env[key] else default
  }

  /** `TESTR_COVERAGE`, lower-cased and stripped, equals `true`. */
  predicate CoverageOn(env: map<string, string>) {
    Strip(Lower(EnvGet(env, "TESTR_COVERAGE", ""))) == "true"
  }

  function CoverageConfig(env: map<string, string>): string {
    EnvGet(env, "TESTR_COVERAGE_CONFIG", "no-coverage-config")
  }

  /** Extra pytest arguments from `TESTR_PYTEST_ARGS`, split on whitespace. */
  function EnvArgs(env: map<string, string>): seq<string> {
    if "TESTR_PYTEST_ARGS" in env then SplitWhitespace(env["TESTR_PYTEST_ARGS"]) else []
  }

  /** The option name of an argument: the text before its first `=`. */
  function ArgName(a: string): (name: string)
    ensures StartsWith(a, name) && '=' !in name
    ensures |name| < |a| ==> a[|name|] == '='
    decreases |a|
  {
    if a == [] || a[0] == '=' then [] else [a[0]] + ArgName(a[1..])
  }

  /** `a.split('=')[0]` is the option name. */
  lemma {:induction false} ArgNameIsFirstPiece(a: string)
    ensures Split(a, '=')[0] == ArgName(a)
    decreases |a|
  {
    if a != [] && a[0] != '=' {
      ArgNameIsFirstPiece(a[1..]);
    }
  }

  /** `[a.split('=')[0] for a in args]`. */
  function ArgNames(args: seq<string>): (names: seq<string>)
    ensures |names| == |args|
    ensures forall i :: 0 <= i < |args| ==> names[i] == ArgName(args[i])
  {
    seq(|args|, i requires 0 <= i < |args| => ArgName(args[i]))
  }

  /** `["-v"]` when verbose output is asked for and not already set or overridden by `-q`. */
  function VerboseArgs(args: seq<string>, names: seq<string>, verbose: bool): seq<string> {
    if verbose && "-v" !in args && "-q" !in names then ["-v"] else []
  }

  /** `["-s"]` when shown output is asked for and not already set or overridden by `--capture`. */
  function ShowArgs(args: seq<string>, names: seq<string>, show: bool): seq<string> {
    if show && "-s" !in args && "--capture" !in names then ["-s"] else []
  }

  /** A JUnit report is written when both `TESTR_OUT_DIR` and `TESTR_FILE` are set. */
  predicate ReportRequested(env: map<string, string>) {
    "TESTR_OUT_DIR" in env && "TESTR_FILE" in env
  }

  function ReportFile(env: map<string, string>): string
    requires ReportRequested(env)
  {
    PathJoin(env["TESTR_OUT_DIR"], env["TESTR_FILE"] + ".xml")
  }

  const ReportPrefix := "--junit-xml="

  function ReportArgs(env: map<string, string>): seq<string> {
    if ReportRequested(env) then [ReportPrefix + ReportFile(env), "-o", "junit_family=xunit2"] else []
  }

  /** The plugin switches at the end: no cache, and no hypothesis unless allowed. */
  function PluginArgs(env: map<string, string>): seq<string> {
    ["-p", "no:cacheprovider"]
      + (if "TESTR_ALLOW_HYPOTHESIS" in env then [] else ["-p", "no:hypothesispytest", "-p", "no:hypothesis"])
  }

  /**
   * The whole argument list `test` passes to pytest. The option names are
   * taken once, before `-v` is added.
   */
  function PytestArgs(args: seq<string>, env: map<string, string>, verbose: bool, show: bool): seq<string> {
    args + EnvArgs(env) + Flags(args + EnvArgs(env), verbose, show) + FixedTail(env)
  }

  /** The `-v` and `-s` that the flags and the arguments `a` call for. */
  function Flags(a: seq<string>, verbose: bool, show: bool): (f: seq<string>)
    ensures forall y :: y in f ==> y == "-v" || y == "-s"
  {
    var names := ArgNames(a);
    var v := VerboseArgs(a, names, verbose);
    v + ShowArgs(a + v, names, show)
  }

  /** What always follows: the warning filters, the report options and the plugin switches. */
  function FixedTail(env: map<string, string>): seq<string> {
    IgnoreWarnings + ReportArgs(env) + PluginArgs(env)
  }

  /** The argument list, rebuilt step by step as `test` does. */
  method AssembleArgs(args0: seq<string>, env: map<string, string>, verbose: bool, show: bool)
    returns (args: seq<string>)
    ensures args == PytestArgs(args0, env, verbose, show)
  {
    args := args0;
    if "TESTR_PYTEST_ARGS" in env {
      args := args + SplitWhitespace(env["TESTR_PYTEST_ARGS"]);
    }
    assert args == args0 + EnvArgs(env);
    args := AddFlags(args, verbose, show);
    ghost var flagged := args;
    args := args + IgnoreWarnings;
    args := AddReport(args, env);
    args := AddPlugins(args, env);
    Append3(flagged, IgnoreWarnings, ReportArgs(env));
    Append3(flagged, IgnoreWarnings + ReportArgs(env), PluginArgs(env));
  }

  /** The JUnit report step: two more arguments when both report variables are set. */
  method AddReport(a: seq<string>, env: map<string, string>) returns (args: seq<string>)
    ensures args == a + ReportArgs(env)
  {
    args := a;
    if "TESTR_OUT_DIR" in env && "TESTR_FILE" in env {
      var reportFile := PathJoin(env["TESTR_OUT_DIR"], env["TESTR_FILE"] + ".xml");
      args := args + [ReportPrefix + reportFile];
      args := args + ["-o", "junit_family=xunit2"];
      Append3(a, [ReportPrefix + reportFile], ["-o", "junit_family=xunit2"]);
    }
  }

  /** The plugin step: the cache provider always, the hypothesis plugins unless allowed. */
  method AddPlugins(a: seq<string>, env: map<string, string>) returns (args: seq<string>)
    ensures args == a + PluginArgs(env)
  {
    args := a + ["-p", "no:cacheprovider"];
    if "TESTR_ALLOW_HYPOTHESIS" !in env {
      Append3(a + ["-p", "no:cacheprovider"], ["-p", "no:hypothesispytest"], ["-p", "no:hypothesis"]);
      Append3(a, ["-p", "no:cacheprovider"], ["-p", "no:hypothesispytest", "-p", "no:hypothesis"]);
      args := args + ["-p", "no:hypothesispytest"];
      args := args + ["-p", "no:hypothesis"];
    }
  }

  /** Appending twice is appending the two parts joined. */
  lemma Append3(x: seq<string>, y: seq<string>, z: seq<string>)
    ensures x + y + z == x + (y + z)
  {
  }

  /** The `-v` and `-s` steps, with the option names taken once beforehand. */
  method AddFlags(a: seq<string>, verbose: bool, show: bool) returns (args: seq<string>)
    ensures args == a + Flags(a, verbose, show)
  {
    args := a;
    var argNames := ArgNames(args);
    if verbose && "-v" !in args && "-q" !in argNames {
      args := args + ["-v"];
    }
    ghost var b := args;
    if show && "-s" !in args && "--capture" !in argNames {
      args := args + ["-s"];
    }
    assert args == b + ShowArgs(b, argNames, show);
  }

  /** None of the arguments `test` appends after the flags is `-v` or `-s`. */
  lemma TailHasNoFlags(env: map<string, string>)
    ensures "-v" !in FixedTail(env) && "-s" !in FixedTail(env)
  {
    assert "-v" !in IgnoreWarnings && "-s" !in IgnoreWarnings by {
      forall y | y in IgnoreWarnings ensures |y| > 2 {
        assert |IgnorePrefix| == 9;
      }
    }
    assert "-v" !in ReportArgs(env) && "-s" !in ReportArgs(env) by {
      if ReportRequested(env) {
        assert |ReportPrefix + ReportFile(env)| > 2 && "-o"[1] == 'o' && |"junit_family=xunit2"| > 2;
      }
    }
    assert "-v" !in PluginArgs(env) && "-s" !in PluginArgs(env) by {
      assert "-p"[1] == 'p' && |"no:cacheprovider"| > 2 && |"no:hypothesispytest"| > 2 && |"no:hypothesis"| > 2;
    }
  }

  /**
   * The user's positional arguments come first, unchanged, followed at once
   * by the words of `TESTR_PYTEST_ARGS`.
   */
  lemma UserArgsFirst(args: seq<string>, env: map<string, string>, verbose: bool, show: bool)
    ensures |args| + |EnvArgs(env)| <= |PytestArgs(args, env, verbose, show)|
    ensures PytestArgs(args, env, verbose, show)[..|args|] == args
    ensures PytestArgs(args, env, verbose, show)[|args|..|args| + |EnvArgs(env)|] == EnvArgs(env)
  {
    var rest := Flags(args + EnvArgs(env), verbose, show) + FixedTail(env);
    assert PytestArgs(args, env, verbose, show) == args + EnvArgs(env) + rest;
  }

  /**
   * `-v` ends up in the list exactly when it was already among the user's
   * or environment's arguments, or verbose output was asked for and no
   * argument is named `-q`.
   */
  lemma VerboseRule(args: seq<string>, env: map<string, string>, verbose: bool, show: bool)
    ensures "-v" in PytestArgs(args, env, verbose, show)
        <==> "-v" in args + EnvArgs(env) || (verbose && "-q" !in ArgNames(args + EnvArgs(env)))
  {
    TailHasNoFlags(env);
  }

  /**
   * `-s` ends up in the list exactly when it was already among the user's
   * or environment's arguments, or shown output was asked for and no
   * argument is named `--capture`.
   */
  lemma ShowOutputRule(args: seq<string>, env: map<string, string>, verbose: bool, show: bool)
    ensures "-s" in PytestArgs(args, env, verbose, show)
        <==> "-s" in args + EnvArgs(env) || (show && "--capture" !in ArgNames(args + EnvArgs(env)))
  {
    TailHasNoFlags(env);
  }

  /** The run `t` occurs in the argument list `s` at position `k`. */
  predicate ArgsAt(s: seq<string>, k: int, t: seq<string>) {
    0 <= k <= |s| - |t| && s[k..k + |t|] == t
  }

  /** No warning filter looks like a report option (they all start `-W`). */
  lemma WarningsAreNotReports()
    ensures forall y :: y in IgnoreWarnings ==> !StartsWith(y, ReportPrefix)
  {
    assert ReportPrefix[1] == '-' && IgnorePrefix[1] == 'W';
    forall y | y in IgnoreWarnings ensures !StartsWith(y, ReportPrefix) {
      assert y[1] == IgnorePrefix[1];
    }
  }

  /** Nor does any plugin switch. */
  lemma PluginsAreNotReports(env: map<string, string>)
    ensures forall y :: y in PluginArgs(env) ==> !StartsWith(y, ReportPrefix)
  {
    assert ReportPrefix[0] == '-' && |ReportPrefix| == 12;
    assert "no:cacheprovider"[0] == 'n' && "no:hypothesispytest"[0] == 'n' && "no:hypothesis"[0] == 'n';
  }

  /**
   * With both `TESTR_OUT_DIR` and `TESTR_FILE` set, pytest writes a JUnit
   * (xunit2) report to `<TESTR_OUT_DIR>/<TESTR_FILE>.xml`, named right after
   * the warning filters; otherwise `test` adds no report option of its own.
   */
  lemma ReportRule(args: seq<string>, env: map<string, string>, verbose: bool, show: bool)
    ensures ReportRequested(env) ==>
              exists k :: ArgsAt(PytestArgs(args, env, verbose, show), k,
                                 IgnoreWarnings + [ReportPrefix + ReportFile(env), "-o", "junit_family=xunit2"])
    ensures !ReportRequested(env) ==>
              forall x :: x in PytestArgs(args, env, verbose, show) && StartsWith(x, ReportPrefix)
                ==> x in args + EnvArgs(env)
  {
    var a := args + EnvArgs(env);
    var c := a + Flags(a, verbose, show);
    var full := PytestArgs(args, env, verbose, show);
    if ReportRequested(env) {
      var k := |c|;
      assert full == c + (IgnoreWarnings + ReportArgs(env)) + PluginArgs(env);
      assert full[k..k + 10] == IgnoreWarnings + ReportArgs(env);
      assert ArgsAt(full, k, IgnoreWarnings + ReportArgs(env));
    } else {
      WarningsAreNotReports();
      PluginsAreNotReports(env);
      assert full == a + Flags(a, verbose, show) + IgnoreWarnings + PluginArgs(env);
      forall x | x in full && StartsWith(x, ReportPrefix) ensures x in a {
      }
    }
  }

  /** `t` is the tail of the argument list `s`. */
  predicate EndsWithArgs(s: seq<string>, t: seq<string>) {
    |t| <= |s| && s[|s| - |t|..] == t
  }

  /**
   * The list always ends with the plugin switches: `-p no:cacheprovider`,
   * followed by the two hypothesis switches unless `TESTR_ALLOW_HYPOTHESIS`
   * is set.
   */
  lemma PluginsLast(args: seq<string>, env: map<string, string>, verbose: bool, show: bool)
    ensures "TESTR_ALLOW_HYPOTHESIS" in env ==>
              EndsWithArgs(PytestArgs(args, env, verbose, show), ["-p", "no:cacheprovider"])
    ensures "TESTR_ALLOW_HYPOTHESIS" !in env ==>
              EndsWithArgs(PytestArgs(args, env, verbose, show),
                           ["-p", "no:cacheprovider", "-p", "no:hypothesispytest", "-p", "no:hypothesis"])
  {
    var pre := args + EnvArgs(env) + Flags(args + EnvArgs(env), verbose, show);
    var u := pre + (IgnoreWarnings + ReportArgs(env));
    var plugins := PluginArgs(env);
    assert PytestArgs(args, env, verbose, show) == pre + FixedTail(env);
    assert FixedTail(env) == (IgnoreWarnings + ReportArgs(env)) + plugins;
    Append3(pre, IgnoreWarnings + ReportArgs(env), plugins);
    EndsWithAppended(u, plugins);
    if "TESTR_ALLOW_HYPOTHESIS" in env {
      assert plugins == ["-p", "no:cacheprovider"];
    } else {
      assert plugins == ["-p", "no:cacheprovider", "-p", "no:hypothesispytest", "-p", "no:hypothesis"];
    }
  }

  /** A list ends with whatever was appended to it last. */
  lemma EndsWithAppended(u: seq<string>, t: seq<string>)
    ensures EndsWithArgs(u + t, t)
  {
    assert (u + t)[|u|..] == t;
  }

  // ---------------------------------------------------------------------
  // test(): running and the result

  /** How git answered `git rev-list HEAD`: it failed to start or exited with a code and output. */
  datatype Git = GitRaised | GitExited(returncode: int, stdout: string)

  /**
   * What `test` cannot see for itself: the environment, the paths that
   * exist, the module name of the calling package, the `__version__` in the
   * caller's globals, git, and the two ways of running pytest (in process
   * with the remaining keyword arguments, or as a subprocess with a command
   * line), each given as the return code it yields.
   */
  datatype World = World(
    env: map<string, string>,
    paths: set<string>,
    caller: string,
    version: Option<string>,
    git: Git,
    pytestMain: (seq<string>, Kwargs) -> int,
    subprocess: seq<string> -> int)

  /** What `test` returns: `None`, `bool(rc)`, or the full version string. */
  datatype Outcome = NoRun | Returned(failed: bool) | Version(full: string)

  /** The options `test` takes out of its keyword arguments, each `False` when absent. */
  datatype TestOptions = TestOptions(
    raiseException: bool, packageFromDir: bool, getVersion: bool, verbose: bool, show: bool)

  function OptionsOf(kw: Kwargs): TestOptions {
    TestOptions(
      Truthy(Get(kw, "raise_exception", Flag(false))),
      Truthy(Get(kw, "package_from_dir", Flag(false))),
      Truthy(Get(kw, "get_version", Flag(false))),
      Truthy(Get(kw, "verbose", Flag(false))),
      Truthy(Get(kw, "show_output", Flag(false))))
  }

  /** The keyword arguments left for pytest after `test` has taken its own. */
  function Rest(kw: Kwargs): Kwargs {
    Pop(Pop(Pop(Pop(Pop(Pop(kw, "raise_exception"), "package_from_dir"), "get_version"),
      "verbose"), "show_output"), "stack_level")
  }

  /** `os.path.join(*parts)`. */
  function JoinAll(parts: seq<string>): string
    requires |parts| >= 1
    decreases |parts|
  {
    if |parts| == 1 then parts[0] else PathJoin(JoinAll(parts[..|parts| - 1]), parts[|parts| - 1])
  }

  /** The package directory handed to pytest, from the dotted module name. */
  function PkgDir(caller: string): string {
    JoinAll(Split(caller, '.'))
  }

  /** The command line of a coverage run, before the pytest arguments. */
  function CoverageCmd(config: string, outDir: string, pkgDir: string): seq<string> {
    ["coverage", "run", "--rcfile=" + config, "--data-file=" + PathJoin(outDir, ".coverage"),
     "-m", "pytest", pkgDir]
  }

  /**
   * `[f'{k}={v}' for k, v in kwargs]` as written: iterating a dictionary
   * gives its keys, so each key string is unpacked into two characters.
   */
  function KwargPairs(keys: seq<string>): (r: Result<seq<string>>)
    ensures r.Ok? ==> |r.value| == |keys|
    decreases |keys|
  {
    if keys == [] then Ok([])
    else
      var k := keys[0];
      if |k| > 2 then Err(ValueError("too many values to unpack (expected 2)"))
      else if |k| < 2 then Err(ValueError("not enough values to unpack (expected 2)"))
      else match KwargPairs(keys[1..])
        case Err(e) => Err(e)
        case Ok(rest) => Ok([[k[0]] + "=" + [k[1]]] + rest)
  }

  /**
   * The return code of running pytest with the argument list `full` and the
   * leftover keyword arguments `rest`, or the error raised before it returns.
   */
  function RunCode(full: seq<string>, rest: Kwargs, w: World): Result<int> {
    var pkgDir := PkgDir(w.caller);
    if CoverageOn(w.env) then
      if "TESTR_OUT_DIR" !in w.env then Err(KeyError("TESTR_OUT_DIR"))
      else match KwargPairs(rest.keys)
        case Err(e) => Err(e)
        case Ok(pairs) =>
          Ok(w.subprocess(CoverageCmd(CoverageConfig(w.env), w.env["TESTR_OUT_DIR"], pkgDir) + full + pairs))
    else Ok(w.pytestMain([pkgDir] + full, rest))
  }

  /** A coverage run was asked for but its configuration file is missing. */
  predicate MissingConfig(env: map<string, string>, paths: set<string>) {
    CoverageOn(env) && CoverageConfig(env) !in paths
  }

  /** `test` asked only for the caller's version string. */
  predicate VersionOnly(o: TestOptions) {
    !o.packageFromDir && o.getVersion
  }

  /** What `test` makes of its options and of the run (which happens only when it gets that far). */
  function Decide(o: TestOptions, run: Result<int>, w: World): Result<Outcome> {
    if MissingConfig(w.env, w.paths) then
      if o.raiseException then Err(TestFailed("Coverage config is not found " + CoverageConfig(w.env)))
      else Ok(NoRun)
    else if VersionOnly(o) then Ok(Version(GetFullVersion(w.version, w.git)))
    else match run
      case Err(e) => Err(e)
      case Ok(rc) => if rc != 0 && o.raiseException then Err(TestFailed("Failed")) else Ok(Returned(rc != 0))
  }

  /** What `test(*args, **kw)` returns or raises. */
  function TestSpec(args: seq<string>, kw: Kwargs, w: World): (r: Result<Outcome>)
    ensures MissingConfig(w.env, w.paths) ==>
              r == (if OptionsOf(kw).raiseException
                    then Err(TestFailed("Coverage config is not found " + CoverageConfig(w.env)))
                    else Ok(NoRun))
    ensures r.Ok? && r.value.Version? <==> !MissingConfig(w.env, w.paths) && VersionOnly(OptionsOf(kw))
    ensures r.Ok? && r.value.Returned? ==> !MissingConfig(w.env, w.paths) && !VersionOnly(OptionsOf(kw))
  {
    var o := OptionsOf(kw);
    Decide(o, RunCode(PytestArgs(args, w.env, o.verbose, o.show), Rest(kw), w), w)
  }

  /** The run itself: `coverage run` as a subprocess, or `pytest.main` in process. */
  method RunPytest(args: seq<string>, kwargs: Kwargs, w: World) returns (rc: Result<int>)
    ensures rc == RunCode(args, kwargs, w)
  {
    var pkgDir := JoinAll(Split(w.caller, '.'));
    if CoverageOn(w.env) {
      if "TESTR_OUT_DIR" !in w.env {
        return Err(KeyError("TESTR_OUT_DIR"));
      }
      var pairs := KwargPairs(kwargs.keys);
      if pairs.Err? {
        return Err(pairs.error);
      }
      var coverageFile := PathJoin(w.env["TESTR_OUT_DIR"], ".coverage");
      var cmd := ["coverage", "run", "--rcfile=" + CoverageConfig(w.env), "--data-file=" + coverageFile,
                  "-m", "pytest", pkgDir] + args + pairs.value;
      rc := Ok(w.subprocess(cmd));
    } else {
      rc := Ok(w.pytestMain([pkgDir] + args, kwargs));
    }
  }

  /** `test(*args, **kwargs)`, popping its options from its own copy of the keyword arguments. */
  method Test(args0: seq<string>, kw: Kwargs, w: World) returns (r: Result<Outcome>)
    ensures r == TestSpec(args0, kw, w)
  {
    FirstOptions(kw);
    var kwargs := kw;
    var raiseException := Truthy(Get(kwargs, "raise_exception", Flag(false)));
    kwargs := Pop(kwargs, "raise_exception");
    var packageFromDir := Truthy(Get(kwargs, "package_from_dir", Flag(false)));
    kwargs := Pop(kwargs, "package_from_dir");
    var getVersion := Truthy(Get(kwargs, "get_version", Flag(false)));
    kwargs := Pop(kwargs, "get_version");

    var withCoverage := CoverageOn(w.env);
    var coverageConfig := EnvGet(w.env, "TESTR_COVERAGE_CONFIG", "no-coverage-config");
    assert coverageConfig == CoverageConfig(w.env);
    if withCoverage && coverageConfig !in w.paths {
      assert MissingConfig(w.env, w.paths);
      MissingConfigStops(args0, kw, w);
      if raiseException {
        return Err(TestFailed("Coverage config is not found " + coverageConfig));
      }
      return Ok(NoRun);
    }
    r := TestWithConfig(args0, kw, kwargs, raiseException, packageFromDir, getVersion, w);
  }

  /** The rest of `test` once the coverage configuration is known to be usable. */
  method TestWithConfig(args0: seq<string>, ghost kw: Kwargs, kwargs0: Kwargs,
                        raiseException: bool, packageFromDir: bool, getVersion: bool, w: World)
    returns (r: Result<Outcome>)
    requires !MissingConfig(w.env, w.paths)
    requires kwargs0 == Pop(Pop(Pop(kw, "raise_exception"), "package_from_dir"), "get_version")
    requires raiseException == OptionsOf(kw).raiseException
    requires packageFromDir == OptionsOf(kw).packageFromDir && getVersion == OptionsOf(kw).getVersion
    ensures r == TestSpec(args0, kw, w)
  {
    OptionsAfterPops(kw);
    var kwargs := kwargs0;
    var verbose := Truthy(Get(kwargs, "verbose", Flag(false)));
    kwargs := Pop(kwargs, "verbose");
    var show := Truthy(Get(kwargs, "show_output", Flag(false)));
    kwargs := Pop(kwargs, "show_output");
    var args := AssembleArgs(args0, w.env, verbose, show);
    kwargs := Pop(kwargs, "stack_level");
    var options := TestOptions(raiseException, packageFromDir, getVersion, verbose, show);
    assert options == OptionsOf(kw);
    r := Conclude(args, kwargs, options, w);
  }

  /** The first three options `test` pops, read one after another, are those of `OptionsOf`. */
  lemma FirstOptions(kw: Kwargs)
    ensures OptionsOf(kw).raiseException == Truthy(Get(kw, "raise_exception", Flag(false)))
    ensures OptionsOf(kw).packageFromDir
         == Truthy(Get(Pop(kw, "raise_exception"), "package_from_dir", Flag(false)))
    ensures OptionsOf(kw).getVersion
         == Truthy(Get(Pop(Pop(kw, "raise_exception"), "package_from_dir"), "get_version", Flag(false)))
  {
    OptionsAfterPops(kw);
  }

  /** Each option `test` pops reads the same as in the caller's keyword arguments. */
  lemma OptionsAfterPops(kw: Kwargs)
    ensures Get(Pop(kw, "raise_exception"), "package_from_dir", Flag(false)) == Get(kw, "package_from_dir", Flag(false))
    ensures Get(Pop(Pop(kw, "raise_exception"), "package_from_dir"), "get_version", Flag(false))
         == Get(kw, "get_version", Flag(false))
    ensures Get(Pop(Pop(Pop(kw, "raise_exception"), "package_from_dir"), "get_version"), "verbose", Flag(false))
         == Get(kw, "verbose", Flag(false))
    ensures Get(Pop(Pop(Pop(Pop(kw, "raise_exception"), "package_from_dir"), "get_version"), "verbose"),
                "show_output", Flag(false))
         == Get(kw, "show_output", Flag(false))
  {
  }

  /** With the coverage configuration missing, `test` stops before anything else. */
  lemma MissingConfigStops(args: seq<string>, kw: Kwargs, w: World)
    requires MissingConfig(w.env, w.paths)
    ensures TestSpec(args, kw, w)
         == if OptionsOf(kw).raiseException then Err(TestFailed("Coverage config is not found " + CoverageConfig(w.env)))
            else Ok(NoRun)
  {
  }

  /** The rest of `test` once its options are taken: the version string, or the run and its result. */
  method Conclude(args: seq<string>, kwargs: Kwargs, o: TestOptions, w: World) returns (r: Result<Outcome>)
    requires !MissingConfig(w.env, w.paths)
    ensures r == Decide(o, RunCode(args, kwargs, w), w)
  {
    if !o.packageFromDir && o.getVersion {
      return Ok(Version(GetFullVersion(w.version, w.git)));
    }
    var run := RunPytest(args, kwargs, w);
    if run.Err? {
      return Err(run.error);
    }
    var rc := run.value;
    if rc != 0 && o.raiseException {
      return Err(TestFailed("Failed"));
    }
    return Ok(Returned(rc != 0));
  }

  /**
   * A missing coverage configuration stops `test` before anything runs: it
   * raises `TestError` when `raise_exception` is truthy and returns `None`
   * otherwise; and `None` is returned in no other case.
   */
  lemma MissingConfigRule(o: TestOptions, run: Result<int>, w: World)
    ensures Decide(o, run, w) == Ok(NoRun) <==> MissingConfig(w.env, w.paths) && !o.raiseException
    ensures MissingConfig(w.env, w.paths) && o.raiseException ==>
              Decide(o, run, w).Err? && Decide(o, run, w).error.TestFailed?
  {
  }

  /**
   * Once pytest has run with return code `rc`, `test` raises
   * `TestError('Failed')` exactly when `rc` is nonzero and `raise_exception`
   * is truthy, and otherwise returns whether `rc` was nonzero.
   */
  lemma ReturnCodeRule(o: TestOptions, rc: int, w: World)
    requires !MissingConfig(w.env, w.paths) && !VersionOnly(o)
    ensures Decide(o, Ok(rc), w) == Err(TestFailed("Failed")) <==> rc != 0 && o.raiseException
    ensures Decide(o, Ok(rc), w).Ok? <==> rc == 0 || !o.raiseException
    ensures Decide(o, Ok(rc), w).Ok? ==> Decide(o, Ok(rc), w).value == Returned(rc != 0)
  {
  }

  /**
   * The version string is returned only on request from the package's own
   * `__init__` (`get_version` without `package_from_dir`), and then no
   * tests run.
   */
  lemma VersionRule(o: TestOptions, run: Result<int>, w: World)
    ensures Decide(o, run, w).Ok? && Decide(o, run, w).value.Version?
        <==> !MissingConfig(w.env, w.paths) && VersionOnly(o)
  {
  }

  /**
   * With coverage on, pytest runs under `coverage run` with the data file
   * in `TESTR_OUT_DIR`; the command line carries the package directory and
   * the full argument list, and, as written, any keyword argument left for
   * pytest whose name is not exactly two characters long makes `test` raise
   * `ValueError` instead.
   */
  lemma CoverageRunRule(full: seq<string>, rest: Kwargs, w: World)
    requires CoverageOn(w.env) && "TESTR_OUT_DIR" in w.env
    ensures (exists i :: 0 <= i < |rest.keys| && |rest.keys[i]| != 2)
        <==> RunCode(full, rest, w).Err? && RunCode(full, rest, w).error.ValueError?
    ensures RunCode(full, rest, w).Ok? ==>
              exists pairs :: KwargPairs(rest.keys) == Ok(pairs)
                && RunCode(full, rest, w).value
                   == w.subprocess(CoverageCmd(CoverageConfig(w.env), w.env["TESTR_OUT_DIR"], PkgDir(w.caller))
                        + full + pairs)
  {
    KwargPairsErrors(rest.keys);
  }

  /** The leftover keyword arguments are the caller's, less the six options `test` takes. */
  lemma RestRule(kw: Kwargs)
    ensures Rest(kw).values == kw.values - {"raise_exception", "package_from_dir", "get_version",
                                            "verbose", "show_output", "stack_level"}
  {
  }

  /** As written, the pairs fail exactly when some key is not two characters long. */
  lemma {:induction false} KwargPairsErrors(keys: seq<string>)
    ensures KwargPairs(keys).Err? <==> exists i :: 0 <= i < |keys| && |keys[i]| != 2
    ensures KwargPairs(keys).Err? ==> KwargPairs(keys).error.ValueError?
    decreases |keys|
  {
    if keys != [] {
      KwargPairsErrors(keys[1..]);
      if exists i :: 0 <= i < |keys[1..]| && |keys[1..][i]| != 2 {
        var i :| 0 <= i < |keys[1..]| && |keys[1..][i]| != 2;
        assert |keys[i + 1]| != 2;
      }
      if exists i :: 0 <= i < |keys| && |keys[i]| != 2 {
        var i :| 0 <= i < |keys| && |keys[i]| != 2;
        if i > 0 { assert |keys[1..][i - 1]| != 2; }
      }
    }
  }

  /** `str(v)` for the values the model distinguishes. */
  function ValueText(v: Value): string {
    match v
    case Flag(b) => if b then "True" else "False"
    case Int(i) => if i < 0 then "-" + NatToString(-i) else NatToString(i)
    case Text(s) => s
    case Other => "<object>"
  }

  /** `[f'{k}={v}' for k, v in kwargs.items()]`: one `key=value` word per keyword argument. */
  function KwargPairsCorrected(kw: Kwargs): (r: seq<string>)
    requires forall k :: k in kw.keys ==> k in kw.values
    ensures |r| == |kw.keys|
    ensures forall i :: 0 <= i < |r| ==> r[i] == kw.keys[i] + "=" + ValueText(kw.values[kw.keys[i]])
  {
    seq(|kw.keys|, i requires 0 <= i < |kw.keys| => kw.keys[i] + "=" + ValueText(kw.values[kw.keys[i]]))
  }

  /** A `key=value` word, its key free of `=`, has the key as its option name. */
  lemma {:induction false} ArgNameOfPair(k: string, v: string)
    requires '=' !in k
    ensures ArgName(k + "=" + v) == k
    decreases |k|
  {
    if k == [] {
      assert (k + "=" + v)[0] == '=';
    } else {
      assert (k + "=" + v)[0] == k[0] && (k + "=" + v)[1..] == k[1..] + "=" + v;
      ArgNameOfPair(k[1..], v);
      assert [k[0]] + k[1..] == k;
    }
  }

  /**
   * The corrected words carry each keyword argument whole: the word for a
   * key without `=` has that key as its option name and the value's text
   * after the `=`.
   */
  lemma KwargPairsNamed(kw: Kwargs)
    requires forall k :: k in kw.keys ==> k in kw.values
    ensures forall i :: 0 <= i < |kw.keys| && '=' !in kw.keys[i] ==>
              ArgName(KwargPairsCorrected(kw)[i]) == kw.keys[i]
              && KwargPairsCorrected(kw)[i][|kw.keys[i]| + 1..] == ValueText(kw.values[kw.keys[i]])
  {
    forall i | 0 <= i < |kw.keys| && '=' !in kw.keys[i]
      ensures ArgName(KwargPairsCorrected(kw)[i]) == kw.keys[i]
      ensures KwargPairsCorrected(kw)[i][|kw.keys[i]| + 1..] == ValueText(kw.values[kw.keys[i]])
    {
      ArgNameOfPair(kw.keys[i], ValueText(kw.values[kw.keys[i]]));
    }
  }

  /** `RunCode` with the pairs built from `kwargs.items()`. */
  function RunCodeCorrected(full: seq<string>, rest: Kwargs, w: World): (r: Result<int>)
    requires forall k :: k in rest.keys ==> k in rest.values
    ensures r.Err? <==> CoverageOn(w.env) && "TESTR_OUT_DIR" !in w.env
  {
    var pkgDir := PkgDir(w.caller);
    if CoverageOn(w.env) then
      if "TESTR_OUT_DIR" !in w.env then Err(KeyError("TESTR_OUT_DIR"))
      else Ok(w.subprocess(CoverageCmd(CoverageConfig(w.env), w.env["TESTR_OUT_DIR"], pkgDir)
                           + full + KwargPairsCorrected(rest)))
    else Ok(w.pytestMain([pkgDir] + full, rest))
  }

  /**
   * With the correction, a coverage run never raises because of the leftover
   * keyword arguments: the command ends with one word per keyword argument,
   * and the word for a key without `=` is named by that key.
   */
  lemma CoverageRunCorrectedRule(full: seq<string>, rest: Kwargs, w: World)
    requires CoverageOn(w.env) && "TESTR_OUT_DIR" in w.env
    requires forall k :: k in rest.keys ==> k in rest.values
    ensures var pairs := KwargPairsCorrected(rest);
      && RunCodeCorrected(full, rest, w)
         == Ok(w.subprocess(CoverageCmd(CoverageConfig(w.env), w.env["TESTR_OUT_DIR"], PkgDir(w.caller))
                            + full + pairs))
      && |pairs| == |rest.keys|
      && forall i :: 0 <= i < |rest.keys| && '=' !in rest.keys[i] ==> ArgName(pairs[i]) == rest.keys[i]
  {
    KwargPairsNamed(rest);
  }

  /**
   * The correction changes nothing for an in-process run, nor for a coverage
   * run without leftover keyword arguments.
   */
  lemma RunCodeAgrees(full: seq<string>, rest: Kwargs, w: World)
    requires forall k :: k in rest.keys ==> k in rest.values
    requires !CoverageOn(w.env) || rest.keys == []
    ensures RunCode(full, rest, w) == RunCodeCorrected(full, rest, w)
  {
    if CoverageOn(w.env) {
      assert KwargPairsCorrected(rest) == [];
    }
  }

  /**
   * A single extra pytest keyword argument such as `plugins` crashes the
   * coverage run as written, while the `.items()` form passes it on as
   * `plugins=<value>`.
   */
  lemma PluginsKwargBreaksCoverage()
    ensures KwargPairs(["plugins"]) == Err(ValueError("too many values to unpack (expected 2)"))
    ensures KwargPairsCorrected(Kwargs(["plugins"], map["plugins" := Other])) == ["plugins=<object>"]
  {
    var r := KwargPairsCorrected(Kwargs(["plugins"], map["plugins" := Other]));
    assert |r| == 1 && r[0] == "plugins" + "=" + "<object>";
    assert "plugins" + "=" + "<object>" == "plugins=<object>";
    assert r == [r[0]];
  }

  // ---------------------------------------------------------------------
  // get_full_version()

  /** `__version__` from the caller's globals, or `unknown`. */
  function Release(version: Option<string>): string {
    if version.Some? then version.value else "unknown"
  }

  /** The first seven characters of `s`, or all of it when shorter. */
  function Abbrev(s: string): (r: string)
    ensures |r| <= 7 && StartsWith(s, r)
  {
    if |s| <= 7 then s else s[..7]
  }

  /**
   * `get_full_version` as written: on a clean `git rev-list HEAD`, the
   * release, `-r` and the number of newline-separated pieces of the output,
   * then the first seven characters of the first line; otherwise the bare
   * release.
   */
  function GetFullVersion(version: Option<string>, git: Git): (r: string)
    ensures StartsWith(r, Release(version))
    ensures !(git.GitExited? && git.returncode == 0) ==> r == Release(version)
  {
    if git.GitExited? && git.returncode == 0 then Tagged(Release(version), Split(git.stdout, '\n'))
    else Release(version)
  }

  /** `release-r<N>-<hash>`: `N` counts `revs` and `hash` abbreviates the first of them. */
  function Tagged(release: string, revs: seq<string>): (r: string)
    requires |revs| >= 1
    ensures StartsWith(r, release)
  {
    release + "-r" + NatToString(|revs|) + "-" + Abbrev(revs[0])
  }

  /** The lines of `s`, a final newline ending the last line rather than starting an empty one. */
  function Lines(s: string): (r: seq<string>)
    ensures |r| >= 1
  {
    if EndsWith(s, "\n") then Split(s[..|s| - 1], '\n') else Split(s, '\n')
  }

  /** `get_full_version` counting lines, so that `N` is the number of commits. */
  function GetFullVersionCorrected(version: Option<string>, git: Git): (r: string)
    ensures StartsWith(r, Release(version))
    ensures !(git.GitExited? && git.returncode == 0) ==> r == Release(version)
  {
    if git.GitExited? && git.returncode == 0 then Tagged(Release(version), Lines(git.stdout))
    else Release(version)
  }

  /** Joining with a separator and then adding one more gives the join with an empty last piece. */
  lemma {:induction false} JoinTrailing(parts: seq<string>, sep: string)
    requires |parts| >= 1
    ensures Join(parts, sep) + sep == Join(parts + [""], sep)
    decreases |parts|
  {
    if |parts| == 1 {
      assert Join([""], sep) == "";
    } else {
      JoinTrailing(parts[1..], sep);
      assert (parts + [""])[1..] == parts[1..] + [""];
    }
  }

  /**
   * For the output of `git rev-list HEAD` listing `hashes` one per line,
   * the version as written reports one revision more than there are
   * commits, after the abbreviated newest hash.
   */
  lemma RevisionCountAsWritten(version: Option<string>, hashes: seq<string>)
    requires |hashes| >= 1
    requires forall i :: 0 <= i < |hashes| ==> '\n' !in hashes[i]
    ensures GetFullVersion(version, GitExited(0, Join(hashes, "\n") + "\n"))
         == Release(version) + "-r" + NatToString(|hashes| + 1) + "-" + Abbrev(hashes[0])
  {
    RevListPieces(hashes);
    assert GetFullVersion(version, GitExited(0, Join(hashes, "\n") + "\n")) == Tagged(Release(version), hashes + [""]);
    TaggedExtraPiece(Release(version), hashes);
  }

  /** Tagging with one extra trailing piece counts one more and abbreviates the same first hash. */
  lemma TaggedExtraPiece(release: string, hashes: seq<string>)
    requires |hashes| >= 1
    ensures Tagged(release, hashes + [""]) == release + "-r" + NatToString(|hashes| + 1) + "-" + Abbrev(hashes[0])
  {
    assert (hashes + [""])[0] == hashes[0];
  }

  /** For the same output, the corrected version reports exactly the number of commits. */
  lemma RevisionCountCorrected(version: Option<string>, hashes: seq<string>)
    requires |hashes| >= 1
    requires forall i :: 0 <= i < |hashes| ==> '\n' !in hashes[i]
    ensures GetFullVersionCorrected(version, GitExited(0, Join(hashes, "\n") + "\n"))
         == Release(version) + "-r" + NatToString(|hashes|) + "-" + Abbrev(hashes[0])
  {
    RevListPieces(hashes);
    assert GetFullVersionCorrected(version, GitExited(0, Join(hashes, "\n") + "\n")) == Tagged(Release(version), hashes);
  }

  /** `git rev-list` output, one hash per line: split gives an extra empty piece, lines do not. */
  lemma RevListPieces(hashes: seq<string>)
    requires |hashes| >= 1
    requires forall i :: 0 <= i < |hashes| ==> '\n' !in hashes[i]
    ensures Split(Join(hashes, "\n") + "\n", '\n') == hashes + [""]
    ensures Lines(Join(hashes, "\n") + "\n") == hashes
  {
    var out := Join(hashes, "\n") + "\n";
    assert "\n" == ['\n'];
    JoinTrailing(hashes, "\n");
    forall i | 0 <= i < |hashes + [""]| ensures '\n' !in (hashes + [""])[i] {
      if i < |hashes| { assert (hashes + [""])[i] == hashes[i]; }
    }
    SplitJoin(hashes + [""], '\n');
    SplitJoin(hashes, '\n');
    assert out[..|out| - 1] == Join(hashes, "\n");
  }

  /** With a single commit, the version as written already reads `-r2-`. */
  lemma OneCommitReadsTwo(version: Option<string>, hash: string)
    requires '\n' !in hash
    ensures GetFullVersion(version, GitExited(0, hash + "\n"))
         == Release(version) + "-r2-" + Abbrev(hash)
  {
    RevisionCountAsWritten(version, [hash]);
    assert Join([hash], "\n") == hash;
    assert NatToString(2) == "2";
  }
}
